/** The skill browser's directory view over flat file paths: listing one level,
    following its directory entries, and reading a listed file. */
module SkillBrowser {
  import opened Common
  import opened Slashes

  /** A row of `skill_files`; the content is the encoded text. */
  datatype File = File(path: string, content: seq<int>)
  /** A skill visible to the caller, with its files in load order. */
  datatype Skill = Skill(folder: string, files: seq<File>)
  datatype Entry = Entry(name: string, path: string, isDir: bool, size: nat)

  // ---- strings and paths ----

  /** `s.strip("/")` */
  function Strip(s: string): string
    decreases |s|
  {
    if s != "" && s[0] == '/' then Strip(s[1..])
    else if s != "" && s[|s| - 1] == '/' then Strip(s[..|s| - 1])
    else s
  }

  lemma StripFixed(s: string)
    requires s != "" && s[0] != '/' && s[|s| - 1] != '/'
    ensures Strip(s) == s
  {
  }

  lemma StripTail(s: string)
    requires s != "" && s[0] != '/'
    ensures Strip(s + "/") == Strip(s)
  {
  }

  predicate IsFolder(folder: string) {
    folder != "" && '/' !in folder
  }

  /** A sub-path the browser can be asked for: no slash at either end. */
  predicate Trimmed(sub: string) {
    sub == "" || (sub[0] != '/' && sub[|sub| - 1] != '/')
  }

  function PathOf(folder: string, sub: string): string {
    if sub == "" then folder else folder + "/" + sub
  }

  function Join(sub: string, d: string): string {
    if sub == "" then d else sub + "/" + d
  }

  function Front(sub: string): string { if sub == "" then "" else sub + "/" }

  // ---- one level of the view ----

  /** What the stored path is to the directory `sub`: elsewhere, a file in it, or
      something inside its directory `dir`. */
  datatype Place = Elsewhere | Child(name: string) | Inside(dir: string)

  function Remainder(sub: string, path: string): Option<string> {
    if sub == "" then Some(path)
    else if sub + "/" <= path then Some(path[|sub| + 1..])
    else None
  }

  function PlaceOf(sub: string, path: string): Place {
    match Remainder(sub, path)
    case None => Elsewhere
    case Some(rest) => if '/' in rest then Inside(FirstPart(rest)) else Child(rest)
  }

  function DirEntry(folder: string, sub: string, d: string): Entry {
    Entry(d, folder + "/" + (if sub == "" then d else sub + "/" + d), true, 0)
  }

  function FileEntry(folder: string, name: string, f: File): Entry {
    Entry(name, folder + "/" + f.path, false, |f.content|)
  }

  function DirNames(items: seq<Entry>): set<string> {
    set e | e in items && e.isDir :: e.name
  }

  /** The listing `items` of `sub` with one more file. */
  function WithFile(items: seq<Entry>, folder: string, sub: string, f: File): seq<Entry> {
    match PlaceOf(sub, f.path)
    case Elsewhere => items
    case Child(name) => items + [FileEntry(folder, name, f)]
    case Inside(d) => if d in DirNames(items) then items else items + [DirEntry(folder, sub, d)]
  }

  /** The listing of `sub`, file by file. */
  function Items(files: seq<File>, folder: string, sub: string): seq<Entry> {
    if files == [] then []
    else WithFile(Items(files[..|files| - 1], folder, sub), folder, sub, files[|files| - 1])
  }

  lemma ItemsNext(files: seq<File>, folder: string, sub: string, n: nat)
    requires n < |files|
    ensures Items(files[..n + 1], folder, sub) == WithFile(Items(files[..n], folder, sub), folder, sub, files[n])
  {
    assert files[..n + 1][..n] == files[..n];
  }

  function FindSkill(skills: seq<Skill>, folder: string): Option<seq<File>> {
    if skills == [] then None
    else if skills[0].folder == folder then Some(skills[0].files)
    else FindSkill(skills[1..], folder)
  }

  function Roots(skills: seq<Skill>): seq<Entry> {
    if skills == [] then []
    else [Entry(skills[0].folder, skills[0].folder, true, 0)] + Roots(skills[1..])
  }

  function Listing(skills: seq<Skill>, path: string): seq<Entry> {
    if path == "" || path == "/" then Roots(skills)
    else
      var clean := Strip(path);
      var folder := FirstPart(clean);
      match FindSkill(skills, folder)
      case None => []
      case Some(files) => Items(files, folder, Strip(clean[|folder|..]))
  }

  method ListFolder(files: seq<File>, folder: string, sub: string) returns (items: seq<Entry>)
    ensures items == Items(files, folder, sub)
  {
    items := [];
    var seenDirs: set<string> := {};
    for n := 0 to |files|
      invariant items == Items(files[..n], folder, sub)
      invariant seenDirs == DirNames(items)
    {
      var f := files[n];
      ItemsNext(files, folder, sub, n);
      var remainder := f.path;
      if sub != "" {
        if !(sub + "/" <= f.path) {
          continue;
        }
        remainder := f.path[|sub| + 1..];
      }
      assert Remainder(sub, f.path) == Some(remainder);
      if '/' in remainder {
        var dirName := FirstPart(remainder);
        assert PlaceOf(sub, f.path) == Inside(dirName);
        if dirName !in seenDirs {
          seenDirs := seenDirs + {dirName};
          var dirPath := if sub != "" then folder + "/" + sub + "/" + dirName else folder + "/" + dirName;
          DirEntryPath(folder, sub, dirName);
          var entry := Entry(dirName, dirPath, true, 0);
          DirNamesGrow(items, entry);
          items := items + [entry];
        }
      } else {
        DirNamesGrow(items, FileEntry(folder, remainder, f));
        items := items + [Entry(remainder, folder + "/" + f.path, false, |f.content|)];
      }
    }
    assert files[..|files|] == files;
  }

  lemma DirEntryPath(folder: string, sub: string, d: string)
    ensures DirEntry(folder, sub, d).path == PathOf(folder, sub) + "/" + d
  {
    assert folder + "/" + (sub + "/" + d) == folder + "/" + sub + "/" + d;
  }

  lemma FileEntryPath(folder: string, sub: string, name: string, f: File)
    requires PlaceOf(sub, f.path) == Child(name)
    ensures FileEntry(folder, name, f).path == PathOf(folder, sub) + "/" + name
  {
    assert f.path == Front(sub) + name;
  }

  lemma DirNamesGrow(items: seq<Entry>, e: Entry)
    ensures DirNames(items + [e]) == DirNames(items) + (if e.isDir then {e.name} else {})
  {
  }

  method BrowseList(skills: seq<Skill>, path: string) returns (items: seq<Entry>)
    ensures items == Listing(skills, path)
  {
    if path == "" || path == "/" {
      items := [];
      for n := 0 to |skills|
        invariant items + Roots(skills[n..]) == Roots(skills)
      {
        items := items + [Entry(skills[n].folder, skills[n].folder, true, 0)];
      }
      return;
    }
    var clean := Strip(path);
    var folder := FirstPart(clean);
    match FindSkill(skills, folder) {
      case None => items := [];
      case Some(files) => items := ListFolder(files, folder, Strip(clean[|folder|..]));
    }
  }

  // ---- what one level shows ----

  /** The root shows every skill once, in order, as an empty-sized directory at its folder. */
  lemma {:induction false} RootsShown(skills: seq<Skill>, i: nat)
    requires i < |skills|
    ensures |Roots(skills)| == |skills|
    ensures Roots(skills)[i] == Entry(skills[i].folder, skills[i].folder, true, 0)
    decreases |skills|
  {
    if |skills| > 1 {
      RootsShown(skills[1..], if i == 0 then 0 else i - 1);
    }
  }

  /** That is what both spellings of the root give. */
  lemma RootListing(skills: seq<Skill>)
    ensures Listing(skills, "") == Listing(skills, "/") == Roots(skills)
  {
  }

  ghost predicate SomeInside(files: seq<File>, sub: string, d: string) {
    exists f :: f in files && PlaceOf(sub, f.path) == Inside(d)
  }

  lemma SomeInsideStep(files: seq<File>, sub: string, d: string)
    requires files != []
    ensures SomeInside(files, sub, d)
       <==> SomeInside(files[..|files| - 1], sub, d) || PlaceOf(sub, files[|files| - 1].path) == Inside(d)
  {
  }

  function CountDir(items: seq<Entry>, d: string): nat {
    if items == [] then 0
    else CountDir(items[..|items| - 1], d) + (if items[|items| - 1].isDir && items[|items| - 1].name == d then 1 else 0)
  }

  lemma CountDirGrow(items: seq<Entry>, e: Entry, d: string)
    ensures CountDir(items + [e], d) == CountDir(items, d) + (if e.isDir && e.name == d then 1 else 0)
  {
  }

  /** A directory is shown once under its parent exactly when some stored file lies
      inside it, and never twice. */
  lemma {:induction false} DirectoryShownOnce(files: seq<File>, folder: string, sub: string, d: string)
    ensures CountDir(Items(files, folder, sub), d) == (if SomeInside(files, sub, d) then 1 else 0)
    ensures d in DirNames(Items(files, folder, sub)) <==> SomeInside(files, sub, d)
    decreases |files|
  {
    if files != [] {
      var prev, f := files[..|files| - 1], files[|files| - 1];
      DirectoryShownOnce(prev, folder, sub, d);
      SomeInsideStep(files, sub, d);
      var items := Items(prev, folder, sub);
      match PlaceOf(sub, f.path)
      case Elsewhere =>
      case Child(name) =>
        CountDirGrow(items, FileEntry(folder, name, f), d);
        DirNamesGrow(items, FileEntry(folder, name, f));
      case Inside(x) =>
        CountDirGrow(items, DirEntry(folder, sub, x), d);
        DirNamesGrow(items, DirEntry(folder, sub, x));
    }
  }

  /** Every entry's path is its name under the listed directory. */
  lemma {:induction false} EntryPath(files: seq<File>, folder: string, sub: string, e: Entry)
    requires e in Items(files, folder, sub)
    ensures e.path == PathOf(folder, sub) + "/" + e.name
    ensures e.isDir ==> e.size == 0
    decreases |files|
  {
    var prev, f := files[..|files| - 1], files[|files| - 1];
    if e in Items(prev, folder, sub) {
      EntryPath(prev, folder, sub, e);
    } else if e.isDir {
      DirEntryPath(folder, sub, e.name);
    } else {
      FileEntryPath(folder, sub, e.name, f);
    }
  }

  // ---- following directory entries ----

  /** A client that opens `path` and then every directory shown, at most `depth`
      levels down; `None` when the depth was not enough. */
  function Walk(skills: seq<Skill>, path: string, depth: nat): Option<seq<Entry>>
    decreases depth, 0
  {
    if depth == 0 then None else Follow(skills, Listing(skills, path), depth - 1)
  }

  function Follow(skills: seq<Skill>, items: seq<Entry>, depth: nat): Option<seq<Entry>>
    decreases depth, |items|
  {
    if items == [] then Some([])
    else
      var first := if items[0].isDir then Walk(skills, items[0].path, depth) else Some([items[0]]);
      var rest := Follow(skills, items[1..], depth);
      if first.None? || rest.None? then None else Some(first.value + rest.value)
  }

  /** How often a path is listed with a size. */
  function Shown(items: seq<Entry>, path: string, size: nat): nat {
    if items == [] then 0
    else (if items[0].path == path && items[0].size == size then 1 else 0) + Shown(items[1..], path, size)
  }

  /** How often a path is stored with a size. */
  function Stored(files: seq<File>, path: string, size: nat): nat {
    if files == [] then 0
    else
      var f := files[|files| - 1];
      Stored(files[..|files| - 1], path, size) + (if f.path == path && |f.content| == size then 1 else 0)
  }

  lemma {:induction false} ShownConcat(a: seq<Entry>, b: seq<Entry>, path: string, size: nat)
    ensures Shown(a + b, path, size) == Shown(a, path, size) + Shown(b, path, size)
  {
    if a == [] {
      assert a + b == b;
    } else {
      assert (a + b)[1..] == a[1..] + b;
      ShownConcat(a[1..], b, path, size);
    }
  }

  lemma {:induction false} StoredSome(files: seq<File>, path: string, size: nat)
    ensures Stored(files, path, size) > 0 ==> exists f :: f in files && f.path == path
  {
    if files != [] {
      var f := files[|files| - 1];
      assert f in files;
      StoredSome(files[..|files| - 1], path, size);
    }
  }

  /** A listed path leads back to the folder and sub-path it was made of. */
  lemma ListingOf(skills: seq<Skill>, folder: string, sub: string)
    requires IsFolder(folder) && Trimmed(sub)
    ensures FindSkill(skills, folder).Some? ==>
              Listing(skills, PathOf(folder, sub)) == Items(FindSkill(skills, folder).value, folder, sub)
  {
    var path := PathOf(folder, sub);
    assert path[0] == folder[0] && path[0] != '/';
    assert path[|path| - 1] != '/' by {
      if sub == "" {
        assert path[|path| - 1] == folder[|folder| - 1];
      } else {
        assert path[|path| - 1] == sub[|sub| - 1];
      }
    }
    StripFixed(path);
    assert path != "/";
    if sub == "" {
      assert path[|folder|..] == "";
    } else {
      assert folder + "/" <= path;
      FirstPartIs(folder, path);
      assert path[|folder|..] == "/" + sub;
      assert path[|folder|..][1..] == sub;
      assert Strip("/" + sub) == Strip(sub) == sub;
    }
  }

  lemma JoinTrimmed(sub: string, d: string)
    requires Trimmed(sub) && d != "" && '/' !in d
    ensures Trimmed(Join(sub, d)) && |Join(sub, d)| > |sub| && Join(sub, d) != ""
  {
  }

  lemma JoinSlash(sub: string, d: string)
    ensures Join(sub, d) + "/" == Front(sub) + (d + "/")
  {
  }

  lemma RemainderBelow(sub: string, d: string, path: string, rest: string)
    requires d != "" && Remainder(sub, path) == Some(rest) && d + "/" <= rest
    ensures Remainder(Join(sub, d), path) == Some(rest[|d| + 1..])
  {
  }

  lemma InsideGivesRemainder(sub: string, d: string, path: string)
    requires d != "" && '/' !in d && PlaceOf(sub, path) == Inside(d)
    ensures Remainder(sub, path).Some? && '/' in Remainder(sub, path).value
    ensures Remainder(Join(sub, d), path) == Some(AfterFirst(Remainder(sub, path).value))
  {
    var rest := Remainder(sub, path).value;
    assert '/' in rest && FirstPart(rest) == d;
    AfterFirstIs(d, rest);
    RemainderBelow(sub, d, path, rest);
  }

  lemma AfterFirstIs(d: string, rest: string)
    requires '/' in rest && FirstPart(rest) == d
    ensures d + "/" <= rest && AfterFirst(rest) == rest[|d| + 1..]
  {
  }

  lemma RemainderGivesInside(sub: string, d: string, path: string)
    requires d != "" && '/' !in d && Remainder(Join(sub, d), path).Some?
    ensures PlaceOf(sub, path) == Inside(d)
  {
    JoinSlash(sub, d);
    assert Front(sub) + (d + "/") <= path;
    assert d + "/" <= path[|Front(sub)|..];
    FirstPartIs(d, path[|Front(sub)|..]);
  }

  /** The files below a shown directory are those the parent places inside it. */
  lemma RemainderOfJoin(sub: string, d: string, path: string)
    requires d != "" && '/' !in d
    ensures Remainder(Join(sub, d), path).Some? <==> PlaceOf(sub, path) == Inside(d)
    ensures PlaceOf(sub, path) == Inside(d) ==>
              Remainder(sub, path).Some? && '/' in Remainder(sub, path).value
              && Remainder(Join(sub, d), path) == Some(AfterFirst(Remainder(sub, path).value))
  {
    if PlaceOf(sub, path) == Inside(d) {
      InsideGivesRemainder(sub, d, path);
    }
    if Remainder(Join(sub, d), path).Some? {
      RemainderGivesInside(sub, d, path);
    }
  }

  /** No directory part of the path is empty. */
  predicate Clean(path: string)
    decreases |path|
  {
    '/' in path ==> FirstPart(path) != "" && Clean(AfterFirst(path))
  }

  ghost predicate AllClean(files: seq<File>) {
    forall f :: f in files ==> Clean(f.path)
  }

  /** Below `sub`, every file still has only non-empty directory parts. */
  ghost predicate CleanBelow(files: seq<File>, sub: string) {
    forall f :: f in files && Remainder(sub, f.path).Some? ==> Clean(Remainder(sub, f.path).value)
  }

  lemma CleanBelowJoin(files: seq<File>, sub: string, d: string)
    requires CleanBelow(files, sub) && d != "" && '/' !in d
    ensures CleanBelow(files, Join(sub, d))
  {
    forall f | f in files && Remainder(Join(sub, d), f.path).Some?
      ensures Clean(Remainder(Join(sub, d), f.path).value)
    {
      RemainderOfJoin(sub, d, f.path);
    }
  }

  /** How far down the tree below `sub` can reach. */
  ghost predicate Within(files: seq<File>, sub: string, depth: nat) {
    depth > 0 && forall f :: f in files ==> |f.path| < |sub| + depth
  }

  /** The share of an entry of `sub`'s listing in the files finally shown: itself,
      or all that is stored below it. */
  function Share(e: Entry, sub: string, file: string, p: string, size: nat, stored: nat): nat {
    if e.isDir then (if PlaceOf(sub, p) == Inside(e.name) then stored else 0)
    else if e.path == file && e.size == size then 1 else 0
  }

  function Shares(items: seq<Entry>, sub: string, file: string, p: string, size: nat, stored: nat): nat {
    if items == [] then 0
    else Share(items[0], sub, file, p, size, stored) + Shares(items[1..], sub, file, p, size, stored)
  }

  lemma {:induction false} SharesGrow(items: seq<Entry>, e: Entry, sub: string, file: string, p: string, size: nat, stored: nat)
    ensures Shares(items + [e], sub, file, p, size, stored)
         == Shares(items, sub, file, p, size, stored) + Share(e, sub, file, p, size, stored)
  {
    if items == [] {
      assert items + [e] == [e] && [e][1..] == [];
    } else {
      assert (items + [e])[1..] == items[1..] + [e];
      SharesGrow(items[1..], e, sub, file, p, size, stored);
    }
  }

  /** What the listing of `sub` accounts for, given how much is stored in all. */
  ghost function Accounted(files: seq<File>, sub: string, p: string, size: nat, stored: nat): nat {
    match PlaceOf(sub, p)
    case Elsewhere => 0
    case Child(_) => Stored(files, p, size)
    case Inside(d) => if SomeInside(files, sub, d) then stored else 0
  }

  lemma {:induction false} SharesOfItems(files: seq<File>, folder: string, sub: string, p: string, size: nat, stored: nat)
    ensures Shares(Items(files, folder, sub), sub, folder + "/" + p, p, size, stored) == Accounted(files, sub, p, size, stored)
    decreases |files|
  {
    if files != [] {
      var prev, f := files[..|files| - 1], files[|files| - 1];
      SharesOfItems(prev, folder, sub, p, size, stored);
      var items := Items(prev, folder, sub);
      match PlaceOf(sub, f.path)
      case Elsewhere =>
        AccountedSame(files, sub, p, size, stored);
      case Child(name) =>
        SharesGrow(items, FileEntry(folder, name, f), sub, folder + "/" + p, p, size, stored);
        SamePath(folder, f.path, p);
        AccountedSame(files, sub, p, size, stored);
      case Inside(d) =>
        SharesGrow(items, DirEntry(folder, sub, d), sub, folder + "/" + p, p, size, stored);
        DirectoryShownOnce(prev, folder, sub, d);
        AccountedSame(files, sub, p, size, stored);
    }
  }

  lemma SamePath(folder: string, a: string, b: string)
    ensures folder + "/" + a == folder + "/" + b <==> a == b
  {
    assert (folder + "/" + a)[|folder| + 1..] == a && (folder + "/" + b)[|folder| + 1..] == b;
  }

  /** One more file changes the account only of its own place. */
  lemma AccountedSame(files: seq<File>, sub: string, p: string, size: nat, stored: nat)
    requires files != []
    ensures var f := files[|files| - 1];
            Accounted(files, sub, p, size, stored) ==
            match PlaceOf(sub, p)
            case Elsewhere => 0
            case Child(_) => Stored(files[..|files| - 1], p, size) + (if f.path == p && |f.content| == size then 1 else 0)
            case Inside(d) =>
              if PlaceOf(sub, f.path) == Inside(d) || SomeInside(files[..|files| - 1], sub, d) then stored else 0
  {
  }

  /** At the end of the listing everything below `sub` is accounted for. */
  lemma AllAccounted(files: seq<File>, sub: string, p: string, size: nat)
    ensures Accounted(files, sub, p, size, Stored(files, p, size))
         == if Remainder(sub, p).Some? then Stored(files, p, size) else 0
  {
  }

  /** The walk from `path` ends and shows the file so many times. */
  ghost predicate WalkShows(skills: seq<Skill>, path: string, depth: nat, file: string, size: nat, times: nat) {
    Walk(skills, path, depth).Some? && Shown(Walk(skills, path, depth).value, file, size) == times
  }

  /** Following the entries comes to an end and shows the sum of their shares. */
  ghost predicate SharesShown(skills: seq<Skill>, items: seq<Entry>, depth: nat, sub: string, file: string,
                              p: string, size: nat, stored: nat) {
    var shown := Follow(skills, items, depth);
    shown.Some? && Shown(shown.value, file, size) == Shares(items, sub, file, p, size, stored)
  }

  /** A directory among the entries can be followed and shows its own share. */
  ghost predicate ShareShown(skills: seq<Skill>, e: Entry, depth: nat, sub: string, file: string,
                             p: string, size: nat, stored: nat) {
    e.isDir ==> WalkShows(skills, e.path, depth, file, size, Share(e, sub, file, p, size, stored))
  }

  /** One more entry adds its own share. */
  lemma FollowOne(skills: seq<Skill>, items: seq<Entry>, depth: nat, sub: string, file: string, p: string, size: nat, stored: nat)
    requires items != [] && SharesShown(skills, items[1..], depth, sub, file, p, size, stored)
    requires ShareShown(skills, items[0], depth, sub, file, p, size, stored)
    ensures SharesShown(skills, items, depth, sub, file, p, size, stored)
  {
    var e := items[0];
    var first := if e.isDir then Walk(skills, e.path, depth).value else [e];
    ShownConcat(first, Follow(skills, items[1..], depth).value, file, size);
    if !e.isDir {
      assert Shown([e], file, size) == Share(e, sub, file, p, size, stored);
    }
  }

  lemma LevelTotal(files: seq<File>, folder: string, sub: string, p: string, size: nat)
    ensures Shares(Items(files, folder, sub), sub, folder + "/" + p, p, size, Stored(files, p, size))
         == if Remainder(sub, p).Some? then Stored(files, p, size) else 0
  {
    SharesOfItems(files, folder, sub, p, size, Stored(files, p, size));
    AllAccounted(files, sub, p, size);
  }

  lemma {:induction false} DirEntryShape(files: seq<File>, folder: string, sub: string, e: Entry)
    requires e in Items(files, folder, sub) && e.isDir
    ensures e == DirEntry(folder, sub, e.name) && SomeInside(files, sub, e.name)
    decreases |files|
  {
    var prev, f := files[..|files| - 1], files[|files| - 1];
    assert f in files && forall g :: g in prev ==> g in files;
    if e in Items(prev, folder, sub) {
      DirEntryShape(prev, folder, sub, e);
    }
  }

  lemma DirPath(folder: string, sub: string, d: string)
    requires Join(sub, d) != ""
    ensures DirEntry(folder, sub, d).path == PathOf(folder, Join(sub, d))
  {
  }

  /** How often the walk from `sub` is to show the file. */
  function Below(files: seq<File>, sub: string, p: string, size: nat): nat {
    if Remainder(sub, p).Some? then Stored(files, p, size) else 0
  }

  /** The walk from `sub` comes to an end, and shows each file below `sub` as often
      as it is stored, and no other file. */
  lemma {:induction false} WalkShowsBelow(skills: seq<Skill>, folder: string, files: seq<File>, sub: string, depth: nat,
                                          p: string, file: string, size: nat)
    requires IsFolder(folder) && Trimmed(sub) && FindSkill(skills, folder) == Some(files) && file == folder + "/" + p
    requires CleanBelow(files, sub) && Within(files, sub, depth)
    ensures WalkShows(skills, PathOf(folder, sub), depth, file, size, Below(files, sub, p, size))
    decreases depth, 2
  {
    WalkShowsEntries(skills, folder, files, sub, depth, p, file, size);
    LevelTotal(files, folder, sub, p, size);
    WalkIsFollow(skills, folder, files, sub, depth);
  }

  lemma WalkIsFollow(skills: seq<Skill>, folder: string, files: seq<File>, sub: string, depth: nat)
    requires IsFolder(folder) && Trimmed(sub) && FindSkill(skills, folder) == Some(files) && depth > 0
    ensures Walk(skills, PathOf(folder, sub), depth) == Follow(skills, Items(files, folder, sub), depth - 1)
  {
    ListingOf(skills, folder, sub);
  }

  /** Following entries of the level shows the share of each. */
  lemma {:induction false} WalkShowsEntries(skills: seq<Skill>, folder: string, files: seq<File>, sub: string, depth: nat,
                                            p: string, file: string, size: nat)
    requires IsFolder(folder) && Trimmed(sub) && FindSkill(skills, folder) == Some(files) && file == folder + "/" + p
    requires CleanBelow(files, sub) && Within(files, sub, depth)
    ensures SharesShown(skills, Items(files, folder, sub), depth - 1, sub, file, p, size, Stored(files, p, size))
    decreases depth, 1
  {
    var items, stored := Items(files, folder, sub), Stored(files, p, size);
    forall e | e in items
      ensures ShareShown(skills, e, depth - 1, sub, file, p, size, stored)
    {
      WalkShowsEntry(skills, folder, files, sub, depth, p, file, size, e);
    }
    FollowAll(skills, items, depth - 1, sub, file, p, size, stored);
  }

  lemma {:induction false} FollowAll(skills: seq<Skill>, items: seq<Entry>, depth: nat, sub: string, file: string,
                                     p: string, size: nat, stored: nat)
    requires forall e | e in items :: ShareShown(skills, e, depth, sub, file, p, size, stored)
    ensures SharesShown(skills, items, depth, sub, file, p, size, stored)
    decreases |items|
  {
    if items != [] {
      FollowAll(skills, items[1..], depth, sub, file, p, size, stored);
      FollowOne(skills, items, depth, sub, file, p, size, stored);
    }
  }

  /** The directory `d` of `sub`, which holds the file `f`, is one level down. */
  lemma DirectoryInside(files: seq<File>, sub: string, depth: nat, d: string, f: File, p: string)
    requires Trimmed(sub) && CleanBelow(files, sub) && Within(files, sub, depth)
    requires f in files && PlaceOf(sub, f.path) == Inside(d)
    ensures Join(sub, d) != "" && Trimmed(Join(sub, d)) && depth > 0
    ensures CleanBelow(files, Join(sub, d)) && Within(files, Join(sub, d), depth - 1)
    ensures Remainder(Join(sub, d), p).Some? <==> PlaceOf(sub, p) == Inside(d)
  {
    assert Clean(Remainder(sub, f.path).value);
    JoinTrimmed(sub, d);
    RemainderOfJoin(sub, d, f.path);
    RemainderOfJoin(sub, d, p);
    CleanBelowJoin(files, sub, d);
    assert |f.path| > |Join(sub, d)|;
  }

  lemma {:induction false} WalkShowsEntry(skills: seq<Skill>, folder: string, files: seq<File>, sub: string, depth: nat,
                                          p: string, file: string, size: nat, e: Entry)
    requires IsFolder(folder) && Trimmed(sub) && FindSkill(skills, folder) == Some(files) && file == folder + "/" + p
    requires CleanBelow(files, sub) && Within(files, sub, depth)
    requires e in Items(files, folder, sub)
    ensures ShareShown(skills, e, depth - 1, sub, file, p, size, Stored(files, p, size))
    decreases depth, 0
  {
    if e.isDir {
      DirEntryShape(files, folder, sub, e);
      var f :| f in files && PlaceOf(sub, f.path) == Inside(e.name);
      var j := Join(sub, e.name);
      DirectoryInside(files, sub, depth, e.name, f, p);
      DirPath(folder, sub, e.name);
      WalkShowsBelow(skills, folder, files, j, depth - 1, p, file, size);
    }
  }

  // ---- the theorems ----

  function Longest(files: seq<File>): (n: nat)
    ensures forall f :: f in files ==> |f.path| <= n
  {
    if files == [] then 0
    else
      var n := Longest(files[1..]);
      assert files == [files[0]] + files[1..];
      if |files[0].path| > n then |files[0].path| else n
  }

  /** Opening a skill folder and then every directory shown reaches every stored
      file exactly as often as it is stored, with its size, and nothing else. */
  lemma WalkListsEveryFile(skills: seq<Skill>, folder: string, files: seq<File>, depth: nat, p: string, size: nat)
    requires IsFolder(folder) && FindSkill(skills, folder) == Some(files) && AllClean(files)
    requires depth > Longest(files)
    ensures Walk(skills, folder, depth).Some?
    ensures Shown(Walk(skills, folder, depth).value, folder + "/" + p, size) == Stored(files, p, size)
  {
    WalkShowsBelow(skills, folder, files, "", depth, p, folder + "/" + p, size);
  }

  lemma {:induction false} FollowStops(skills: seq<Skill>, items: seq<Entry>, depth: nat, e: Entry)
    requires e in items && e.isDir && Walk(skills, e.path, depth).None?
    ensures Follow(skills, items, depth).None?
    decreases |items|
  {
    if e != items[0] {
      FollowStops(skills, items[1..], depth, e);
    }
  }

  lemma WalkStops(skills: seq<Skill>, path: string, depth: nat, e: Entry)
    requires depth > 0 && e in Listing(skills, path) && e.isDir && Walk(skills, e.path, depth - 1).None?
    ensures Walk(skills, path, depth).None?
  {
    FollowStops(skills, Listing(skills, path), depth - 1, e);
  }

  lemma {:induction false} DirEntryShown(files: seq<File>, folder: string, sub: string, d: string)
    requires SomeInside(files, sub, d)
    ensures DirEntry(folder, sub, d) in Items(files, folder, sub)
  {
    DirectoryShownOnce(files, folder, sub, d);
    var e :| e in Items(files, folder, sub) && e.isDir && e.name == d;
    DirEntryShape(files, folder, sub, e);
  }

  /** The directory with the empty name leads back to its own parent. */
  lemma EmptyNameLoops(skills: seq<Skill>, folder: string, sub: string)
    requires IsFolder(folder) && Trimmed(sub)
    ensures Listing(skills, DirEntry(folder, sub, "").path) == Listing(skills, PathOf(folder, sub))
  {
    var path := PathOf(folder, sub);
    var back := DirEntry(folder, sub, "").path;
    assert back == path + "/";
    assert path[0] == folder[0] && path[0] != '/';
    StripTail(path);
    assert back != "/" && path != "/" && path != "";
  }

  /** The next level of a path whose remainder has an empty directory part: the
      same level again when that part is the next one. */
  lemma TrapBelow(skills: seq<Skill>, files: seq<File>, folder: string, sub: string, f: File) returns (next: string, e: Entry)
    requires IsFolder(folder) && Trimmed(sub)
    requires f in files && Remainder(sub, f.path).Some? && !Clean(Remainder(sub, f.path).value)
    ensures Trimmed(next) && Remainder(next, f.path).Some? && !Clean(Remainder(next, f.path).value)
    ensures e in Items(files, folder, sub) && e.isDir
    ensures Listing(skills, e.path) == Listing(skills, PathOf(folder, next))
  {
    var d := FirstPart(Remainder(sub, f.path).value);
    e := DirEntry(folder, sub, d);
    assert PlaceOf(sub, f.path) == Inside(d);
    DirEntryShown(files, folder, sub, d);
    if d == "" {
      next := sub;
      EmptyNameLoops(skills, folder, sub);
    } else {
      next := Join(sub, d);
      JoinTrimmed(sub, d);
      DirPath(folder, sub, d);
      InsideGivesRemainder(sub, d, f.path);
    }
  }

  /** A file with an empty directory part traps the walk, however deep it may go. */
  lemma {:induction false} WalkTrapped(skills: seq<Skill>, folder: string, files: seq<File>, sub: string, depth: nat, f: File)
    requires IsFolder(folder) && Trimmed(sub) && FindSkill(skills, folder) == Some(files)
    requires f in files && Remainder(sub, f.path).Some? && !Clean(Remainder(sub, f.path).value)
    ensures Walk(skills, PathOf(folder, sub), depth).None?
    decreases depth
  {
    if depth > 0 {
      var next, e := TrapBelow(skills, files, folder, sub, f);
      WalkTrapped(skills, folder, files, next, depth - 1, f);
      SameWalk(skills, e.path, PathOf(folder, next), depth - 1);
      ListingOf(skills, folder, sub);
      WalkStops(skills, PathOf(folder, sub), depth, e);
    }
  }

  lemma SameWalk(skills: seq<Skill>, a: string, b: string, depth: nat)
    requires Listing(skills, a) == Listing(skills, b)
    ensures Walk(skills, a, depth) == Walk(skills, b, depth)
  {
  }

  /** Following directory entries comes to an end exactly when no stored path has an
      empty directory part: no leading slash and no two slashes in a row. */
  lemma WalkEndsIffClean(skills: seq<Skill>, folder: string, files: seq<File>)
    requires IsFolder(folder) && FindSkill(skills, folder) == Some(files)
    ensures (exists depth: nat :: Walk(skills, folder, depth).Some?) <==> AllClean(files)
  {
    if AllClean(files) {
      WalkListsEveryFile(skills, folder, files, Longest(files) + 1, "", 0);
    } else {
      var f :| f in files && !Clean(f.path);
      forall depth: nat
        ensures Walk(skills, folder, depth).None?
      {
        WalkTrapped(skills, folder, files, "", depth, f);
      }
    }
  }

  // ---- reading ----

  datatype Read = Content(content: seq<int>) | BadPath | SkillNotFound | FileNotFound

  function FirstAt(files: seq<File>, path: string): Option<File> {
    if files == [] then None
    else if files[0].path == path then Some(files[0])
    else FirstAt(files[1..], path)
  }

  function ReplyFor(file: Option<File>): Read {
    match file
    case None => FileNotFound
    case Some(f) => Content(f.content)
  }

  function ReadOf(skills: seq<Skill>, path: string): Read {
    var clean := Strip(path);
    if '/' !in clean then BadPath
    else
      match FindSkill(skills, FirstPart(clean))
      case None => SkillNotFound
      case Some(files) =>
        ReplyFor(FirstAt(files, AfterFirst(clean)))
  }

  /** The folder and the stored path that reading `path` looks up. */
  function Target(path: string): Option<(string, string)> {
    var clean := Strip(path);
    if '/' !in clean then None else Some((FirstPart(clean), AfterFirst(clean)))
  }

  /** The row whose content reading `path` returns. */
  function RowRead(skills: seq<Skill>, path: string): Option<File> {
    match Target(path)
    case None => None
    case Some(target) =>
      match FindSkill(skills, target.0)
      case None => None
      case Some(files) => FirstAt(files, target.1)
  }

  method BrowseRead(skills: seq<Skill>, path: string) returns (reply: Read)
    ensures reply == ReadOf(skills, path)
  {
    var clean := Strip(path);
    if '/' !in clean {
      return BadPath;
    }
    var found := FindSkill(skills, FirstPart(clean));
    if found.None? {
      return SkillNotFound;
    }
    var files, filePath := found.value, AfterFirst(clean);
    for n := 0 to |files|
      invariant FirstAt(files, filePath) == FirstAt(files[n..], filePath)
    {
      if files[n].path == filePath {
        return Content(files[n].content);
      }
    }
    return FileNotFound;
  }

  predicate Readable(path: string) {
    path != "" && path[|path| - 1] != '/'
  }

  lemma PathEnds(folder: string, p: string)
    requires IsFolder(folder)
    ensures (folder + "/" + p)[0] != '/'
    ensures p != "" ==> (folder + "/" + p)[|folder + "/" + p| - 1] == p[|p| - 1]
  {
  }

  lemma StripReadable(folder: string, p: string)
    requires IsFolder(folder) && Readable(p)
    ensures Strip(folder + "/" + p) == folder + "/" + p
  {
  }

  lemma Regroup(folder: string, p: string)
    requires p != "" && p[|p| - 1] == '/'
    ensures folder + "/" + p == folder + "/" + p[..|p| - 1] + "/"
  {
  }

  lemma StripLostSlash(folder: string, p: string)
    requires IsFolder(folder) && p != "" && !Readable(p)
    ensures Strip(folder + "/" + p) == Strip(folder + "/" + p[..|p| - 1])
  {
    PathEnds(folder, p[..|p| - 1]);
    StripTail(folder + "/" + p[..|p| - 1]);
    Regroup(folder, p);
  }

  lemma StripFolder(folder: string)
    requires IsFolder(folder)
    ensures Strip(folder + "/" + "") == folder
  {
  }

  lemma PartsOf(folder: string, p: string)
    requires IsFolder(folder)
    ensures '/' in folder + "/" + p
    ensures FirstPart(folder + "/" + p) == folder && AfterFirst(folder + "/" + p) == p
  {
    FirstPartIs(folder, folder + "/" + p);
  }

  /** The path of a listed file reads that file when its stored path does not end in
      a slash; otherwise the slash is lost on the way and the reader looks for
      another path. */
  lemma ReadListedFile(skills: seq<Skill>, folder: string, files: seq<File>, p: string)
    requires IsFolder(folder) && FindSkill(skills, folder) == Some(files)
    ensures Readable(p) ==> ReadOf(skills, folder + "/" + p) == ReplyFor(FirstAt(files, p))
    ensures p != "" && !Readable(p) ==> ReadOf(skills, folder + "/" + p) == ReadOf(skills, folder + "/" + p[..|p| - 1])
    ensures p == "" ==> ReadOf(skills, folder + "/" + p) == BadPath
  {
    if Readable(p) {
      StripReadable(folder, p);
      ReadAt(skills, folder, files, p, folder + "/" + p);
    } else if p != "" {
      StripLostSlash(folder, p);
      SameRead(skills, folder + "/" + p, folder + "/" + p[..|p| - 1]);
    } else {
      StripFolder(folder);
    }
  }

  lemma ReadAt(skills: seq<Skill>, folder: string, files: seq<File>, p: string, path: string)
    requires IsFolder(folder) && FindSkill(skills, folder) == Some(files) && Strip(path) == folder + "/" + p
    ensures ReadOf(skills, path) == ReplyFor(FirstAt(files, p))
  {
    PartsOf(folder, p);
  }

  lemma SameRead(skills: seq<Skill>, a: string, b: string)
    requires Strip(a) == Strip(b)
    ensures ReadOf(skills, a) == ReadOf(skills, b)
  {
  }

  lemma {:induction false} OnlyRowAt(files: seq<File>, f: File)
    requires f in files && forall g :: g in files && g.path == f.path ==> g == f
    ensures FirstAt(files, f.path) == Some(f)
  {
    if files[0].path != f.path {
      OnlyRowAt(files[1..], f);
    } else {
      assert files[0] in files;
    }
  }

  /** Stripping the path of a listed file stops at its folder. */
  lemma {:induction false} StripKeepsFolder(folder: string, p: string)
    requires IsFolder(folder)
    ensures var clean := Strip(folder + "/" + p);
            |clean| <= |folder + "/" + p| && (clean == folder || folder + "/" <= clean)
    decreases |p|
  {
    if Readable(p) {
      StripReadable(folder, p);
    } else if p == "" {
      StripFolder(folder);
    } else {
      StripLostSlash(folder, p);
      StripKeepsFolder(folder, p[..|p| - 1]);
    }
  }

  lemma StripShortens(folder: string, p: string)
    requires IsFolder(folder) && !Readable(p)
    ensures |Strip(folder + "/" + p)| < |folder + "/" + p|
  {
    if p == "" {
      StripFolder(folder);
    } else {
      StripLostSlash(folder, p);
      StripKeepsFolder(folder, p[..|p| - 1]);
    }
  }

  /** Reading a listed file looks up its own folder, and its own stored path exactly
      when that path is not empty and does not end in a slash; otherwise it looks up
      a shorter path or none. */
  lemma LooksUpItself(folder: string, p: string)
    requires IsFolder(folder)
    ensures var target := Target(folder + "/" + p);
            && (target == Some((folder, p)) <==> Readable(p))
            && (target.Some? ==> target.value.0 == folder)
            && (target.Some? && !Readable(p) ==> |target.value.1| < |p|)
  {
    var clean := Strip(folder + "/" + p);
    StripKeepsFolder(folder, p);
    if Readable(p) {
      StripReadable(folder, p);
      PartsOf(folder, p);
    } else {
      StripShortens(folder, p);
      if folder + "/" <= clean {
        FirstPartIs(folder, clean);
      }
    }
  }

  lemma {:induction false} FirstAtPath(files: seq<File>, path: string)
    ensures FirstAt(files, path).Some? ==> FirstAt(files, path).value.path == path
    decreases |files|
  {
    if files != [] {
      FirstAtPath(files[1..], path);
    }
  }

  /** The reply is the content of the row read, when there is one. */
  lemma ReadIsRow(skills: seq<Skill>, path: string)
    ensures ReadOf(skills, path).Content? <==> RowRead(skills, path).Some?
    ensures RowRead(skills, path).Some? ==> ReadOf(skills, path) == Content(RowRead(skills, path).value.content)
  {
  }

  /** In a skill with no path stored twice, opening a shown file reads that file
      exactly when its path is not empty and does not end in a slash. */
  lemma ShownFileReadsBack(skills: seq<Skill>, folder: string, files: seq<File>, f: File)
    requires IsFolder(folder) && FindSkill(skills, folder) == Some(files) && f in files
    requires forall g :: g in files && g.path == f.path ==> g == f
    ensures RowRead(skills, folder + "/" + f.path) == Some(f) <==> Readable(f.path)
    ensures Readable(f.path) ==> ReadOf(skills, folder + "/" + f.path) == Content(f.content)
  {
    LooksUpItself(folder, f.path);
    OnlyRowAt(files, f);
    ReadIsRow(skills, folder + "/" + f.path);
    var target := Target(folder + "/" + f.path);
    if target.Some? {
      FirstAtPath(files, target.value.1);
    }
  }

  /** Paths that break the view: a slash too many traps the walk, and a trailing
      slash makes a shown file unreadable. */
  lemma UncleanPaths()
    ensures !Clean("a//b") && !Clean("/a") && Clean("a/")
    ensures ReadOf([Skill("s", [File("a/", [1])])], "s" + "/" + "a/") == FileNotFound
  {
    FirstPartIs("a", "a//b");
    assert AfterFirst("a//b") == "/b";
    FirstPartIs("", "/b");
    FirstPartIs("", "/a");
    FirstPartIs("a", "a/");
    assert AfterFirst("a/") == "";
    LostSlash([File("a/", [1])]);
  }

  lemma LostSlash(files: seq<File>)
    requires files == [File("a/", [1])]
    ensures ReadOf([Skill("s", files)], "s" + "/" + "a/") == FileNotFound
  {
    var skills := [Skill("s", files)];
    ReadListedFile(skills, "s", files, "a/");
    ReadListedFile(skills, "s", files, "a");
    assert "a/"[..1] == "a" && FirstAt(files[1..], "a") == None;
    assert FirstAt(files, "a") == None;
  }
}
