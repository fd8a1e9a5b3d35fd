/** Where an upload is saved: the cleaned file name, made fresh by a counter when the
    directory already has it. */
module UploadNames {
  import opened Common
  import opened Slashes

  // ---- the cleaned name ----

  /** `s.replace("\\", "/")` */
  function Forward(s: string): (r: string)
    ensures |r| == |s| && forall i :: 0 <= i < |s| ==> r[i] == if s[i] == '\\' then '/' else s[i]
  {
    seq(|s|, i requires 0 <= i < |s| => if s[i] == '\\' then '/' else s[i])
  }

  /** `s.split("/")` */
  function Split(s: string): (r: seq<string>)
    ensures forall c :: c in r ==> '/' !in c
    decreases |s|
  {
    if '/' in s then [FirstPart(s)] + Split(AfterFirst(s)) else [s]
  }

  /** A path drops empty and `.` components. */
  predicate IsKept(component: string) {
    component != "" && component != "."
  }

  /** `Path(s).name` */
  function NameOf(s: string): string {
    var parts := Filter(IsKept, Split(s));
    if parts == [] then "" else parts[|parts| - 1]
  }

  /** `_sanitize_upload_filename`; `None` is its 400 answer. */
  function Sanitize(filename: string): Option<string> {
    var name := NameOf(Forward(filename));
    if name == "" || name == "." || name == ".." then None else Some(name)
  }

  /** A name that denotes a file in the directory itself. */
  predicate IsSafe(name: string) {
    name != "" && name != "." && name != ".." && '/' !in name && '\\' !in name
  }

  lemma {:induction false} SplitUsesChars(s: string, x: char)
    requires x !in s
    ensures forall c :: c in Split(s) ==> x !in c
    decreases |s|
  {
    if '/' in s {
      SplitUsesChars(AfterFirst(s), x);
      assert FirstPart(s) <= s;
    }
  }

  /** Whatever the client calls its file, the cleaned name denotes a file in the
      directory itself. */
  lemma SanitizedIsSafe(filename: string)
    ensures Sanitize(filename).Some? ==> IsSafe(Sanitize(filename).value)
  {
    assert '\\' !in Forward(filename);
    SplitUsesChars(Forward(filename), '\\');
  }

  lemma {:induction false} SplitAppend(a: string, n: string)
    requires '/' !in n
    ensures Split(a + "/" + n) == Split(a) + [n]
    decreases |a|
  {
    var s := a + "/" + n;
    if '/' in a {
      assert FirstPart(a) + "/" <= s;
      FirstPartIs(FirstPart(a), s);
      assert AfterFirst(s) == AfterFirst(a) + "/" + n;
      SplitAppend(AfterFirst(a), n);
      assert Split(s) == [FirstPart(a)] + (Split(AfterFirst(a)) + [n]);
    } else {
      assert a + "/" <= s;
      FirstPartIs(a, s);
      assert AfterFirst(s) == n;
    }
  }

  /** A safe name is kept, whatever directories the client puts before it, with
      either kind of slash. */
  lemma SafeNameIsKept(dir: string, slash: char, name: string)
    requires IsSafe(name) && slash in "/\\"
    ensures Sanitize(dir + [slash] + name) == Some(name) && Sanitize(name) == Some(name)
  {
    var whole := dir + [slash] + name;
    assert Forward(name) == name;
    assert Forward(whole) == Forward(dir) + "/" + name;
    SplitAppend(Forward(dir), name);
    FilterConcat(IsKept, Split(Forward(dir)), [name]);
    assert Filter(IsKept, [name]) == [name];
    assert Split(name) == [name];
  }

  lemma ForwardSlash(dir: string, slash: char, last: string)
    requires slash in "/\\" && Forward(last) == last
    ensures Forward(dir + [slash] + last) == Forward(dir) + "/" + last
  {
  }

  /** Slashes and single dots at the end change nothing: the name is that of the last real
      component. */
  lemma TrailingIsIgnored(filename: string, slash: char)
    requires slash in "/\\"
    ensures Sanitize(filename + [slash]) == Sanitize(filename)
    ensures Sanitize(filename + [slash] + ".") == Sanitize(filename)
  {
    ForwardSlash(filename, slash, "");
    ForwardSlash(filename, slash, ".");
    assert filename + [slash] + "" == filename + [slash];
    EmptyIsDropped(Forward(filename), "");
    EmptyIsDropped(Forward(filename), ".");
  }

  lemma EmptyIsDropped(path: string, last: string)
    requires '/' !in last && !IsKept(last)
    ensures NameOf(path + "/" + last) == NameOf(path)
  {
    SplitAppend(path, last);
    FilterConcat(IsKept, Split(path), [last]);
    assert [last][1..] == [];
  }

  /** A path that ends in `..` is refused. */
  lemma ParentIsRefused(dir: string, slash: char)
    requires slash in "/\\"
    ensures Sanitize(dir + [slash] + "..").None?
  {
    ForwardSlash(dir, slash, "..");
    LastIsName(Forward(dir), "..");
  }

  lemma LastIsName(path: string, last: string)
    requires '/' !in last && IsKept(last)
    ensures NameOf(path + "/" + last) == last
  {
    SplitAppend(path, last);
    FilterConcat(IsKept, Split(path), [last]);
    assert [last][1..] == [];
  }

  // ---- stem, suffix and counter ----

  /** The position of the last dot, or the length when there is none. */
  function LastDot(s: string): (i: nat)
    ensures i <= |s| && (i < |s| ==> s[i] == '.')
    ensures forall j :: 0 <= j < |s| && s[j] == '.' ==> i < |s| && j <= i
  {
    if s == "" then 0
    else if s[|s| - 1] == '.' then |s| - 1
    else
      var i := LastDot(s[..|s| - 1]);
      if i == |s| - 1 then |s| else i
  }

  /** `Path.stem` and `Path.suffix`: a leading or a final dot starts no suffix. */
  function Stem(name: string): string {
    var i := LastDot(name);
    if 0 < i < |name| - 1 then name[..i] else name
  }

  function Suffix(name: string): string {
    var i := LastDot(name);
    if 0 < i < |name| - 1 then name[i..] else ""
  }

  lemma StemAndSuffix(name: string)
    ensures Stem(name) + Suffix(name) == name
    ensures Suffix(name) != "" ==> Stem(name) != "" && Suffix(name)[0] == '.' && '.' !in Suffix(name)[1..]
  {
  }

  function Digit(d: nat): char
    requires d < 10
  {
    ['0', '1', '2', '3', '4', '5', '6', '7', '8', '9'][d]
  }

  function Decimal(n: nat): (r: string)
    ensures r != ""
  {
    if n < 10 then [Digit(n)] else Decimal(n / 10) + [Digit(n % 10)]
  }

  lemma {:induction false} DecimalInjective(m: nat, n: nat)
    requires Decimal(m) == Decimal(n)
    ensures m == n
  {
    assert Decimal(m)[|Decimal(m)| - 1] == Digit(m % 10) && Decimal(n)[|Decimal(n)| - 1] == Digit(n % 10);
    if m < 10 || n < 10 {
      assert |Decimal(m)| == 1 && |Decimal(n)| == 1;
    } else {
      assert Decimal(m / 10) == Decimal(m)[..|Decimal(m)| - 1];
      assert Decimal(n / 10) == Decimal(n)[..|Decimal(n)| - 1];
      DecimalInjective(m / 10, n / 10);
    }
  }

  function Candidate(stem: string, suffix: string, n: nat): string {
    stem + "_" + Decimal(n) + suffix
  }

  /** The counter goes between the stem and the last suffix, in decimal from 1 on. */
  lemma CandidateVectors()
    ensures Candidate(Stem("report.tar.gz"), Suffix("report.tar.gz"), 1) == "report.tar_1.gz"
    ensures Candidate(Stem(".profile"), Suffix(".profile"), 2) == ".profile_2"
    ensures Candidate(Stem("notes"), Suffix("notes"), 10) == "notes_10"
    ensures Candidate(Stem("ends."), Suffix("ends."), 1) == "ends._1"
  {
    var gz, profile, ends := "report.tar.gz", ".profile", "ends.";
    assert gz[10] == '.' && LastDot(gz) == 10 && gz[..10] == "report.tar" && gz[10..] == ".gz";
    assert profile[0] == '.' && LastDot(profile) == 0;
    assert ends[4] == '.' && LastDot(ends) == 4;
    assert LastDot("notes") == 5;
    assert Decimal(1) == "1" && Decimal(2) == "2" && Decimal(10) == "1" + "0";
  }

  lemma CandidateInjective(stem: string, suffix: string, m: nat, n: nat)
    requires Candidate(stem, suffix, m) == Candidate(stem, suffix, n)
    ensures m == n
  {
    var c := Candidate(stem, suffix, m);
    assert c[|stem| + 1..|c| - |suffix|] == Decimal(m);
    assert Candidate(stem, suffix, n)[|stem| + 1..|c| - |suffix|] == Decimal(n);
    DecimalInjective(m, n);
  }

  // ---- the fresh name ----

  /** The first `n - 1` candidates. */
  ghost function Tried(stem: string, suffix: string, n: nat): (r: set<string>)
    requires n > 0
    ensures forall k: nat :: 0 < k < n ==> Candidate(stem, suffix, k) in r
  {
    if n == 1 then {} else Tried(stem, suffix, n - 1) + {Candidate(stem, suffix, n - 1)}
  }

  /** The candidates before `n` are `n - 1` different names, all longer than the
      original one. */
  lemma {:induction false} TriedSize(stem: string, suffix: string, n: nat)
    requires n > 0
    ensures |Tried(stem, suffix, n)| == n - 1
    ensures forall x :: x in Tried(stem, suffix, n) ==> exists k: nat :: 0 < k < n && x == Candidate(stem, suffix, k)
  {
    if n > 1 {
      TriedSize(stem, suffix, n - 1);
      var c := Candidate(stem, suffix, n - 1);
      if c in Tried(stem, suffix, n - 1) {
        var k: nat :| 0 < k < n - 1 && c == Candidate(stem, suffix, k);
        CandidateInjective(stem, suffix, k, n - 1);
      }
    }
  }

  /** If all candidates before `n` are taken, and the name itself is, there are at
      least `n` files. */
  lemma TakenAtLeast(existing: set<string>, stem: string, suffix: string, n: nat)
    requires n > 0 && stem + suffix in existing
    requires forall k: nat :: 0 < k < n ==> Candidate(stem, suffix, k) in existing
    ensures n <= |existing|
  {
    TriedSize(stem, suffix, n);
    var names := Tried(stem, suffix, n) + {stem + suffix};
    assert forall k: nat :: |Candidate(stem, suffix, k)| > |stem + suffix|;
    SubsetSize(names, existing);
  }

  /** What the loop is meant to find: the name itself if it is free, else the first
      free candidate. */
  ghost predicate IsFirstFree(existing: set<string>, name: string, chosen: string, n: nat) {
    && chosen !in existing
    && (n == 0 ==> chosen == name)
    && (n > 0 ==> name in existing && chosen == Candidate(Stem(name), Suffix(name), n))
    && (forall k: nat :: 0 < k < n ==> Candidate(Stem(name), Suffix(name), k) in existing)
  }

  lemma FirstFreeUnique(existing: set<string>, name: string, c: string, m: nat, d: string, n: nat)
    requires IsFirstFree(existing, name, c, m) && IsFirstFree(existing, name, d, n)
    ensures c == d && m == n
  {
  }

  /** The fresh-name loop ends for every directory, after at most as many candidates
      as there are files, with a name no file has. */
  method FreshName(existing: set<string>, name: string) returns (chosen: string, tries: nat)
    ensures IsFirstFree(existing, name, chosen, tries)
    ensures tries <= |existing|
  {
    chosen, tries := name, 0;
    if chosen in existing {
      var stem, suffix := Stem(name), Suffix(name);
      StemAndSuffix(name);
      var counter := 1;
      while chosen in existing
        invariant counter > 0
        invariant chosen == if counter == 1 then name else Candidate(stem, suffix, counter - 1)
        invariant forall k: nat :: 0 < k < counter - 1 ==> Candidate(stem, suffix, k) in existing
        invariant counter <= |existing| + 1
        decreases |existing| + 1 - counter
      {
        TakenAtLeast(existing, stem, suffix, counter);
        chosen := Candidate(stem, suffix, counter);
        counter := counter + 1;
      }
      tries := counter - 1;
    }
  }

  // ---- the uploads directory ----

  datatype Upload = Upload(filename: string, content: seq<int>)

  type Files = map<string, seq<int>>

  /** Every file of `before` is still there with its content. */
  ghost predicate Keeps(before: Files, after: Files) {
    forall f :: f in before ==> f in after && after[f] == before[f]
  }

  /** Every accepted upload is a new file with its content, under a name of its own. */
  ghost predicate AllSaved(uploads: seq<Upload>, saved: seq<Option<string>>, before: Files, after: Files) {
    && |saved| == |uploads|
    && (forall k :: 0 <= k < |saved| && saved[k].Some? ==>
          saved[k].value in after && after[saved[k].value] == uploads[k].content && saved[k].value !in before)
    && (forall j, k :: 0 <= j < k < |saved| && saved[j].Some? && saved[k].Some? ==> saved[j] != saved[k])
  }

  lemma SavedOneMore(uploads: seq<Upload>, saved: seq<Option<string>>, start: Files, before: Files,
                     upload: Upload, s: Option<string>, after: Files)
    requires Keeps(start, before) && AllSaved(uploads, saved, start, before)
    requires s.None? ==> after == before
    requires s.Some? ==> s.value !in before && after == before[s.value := upload.content]
    ensures Keeps(start, after) && AllSaved(uploads + [upload], saved + [s], start, after)
  {
  }

  class Directory {
    var files: Files

    /** `upload_file` for an agent; `None` is a 400 answer. */
    method UploadFile(upload: Upload) returns (saved: Option<string>)
      modifies this
      ensures saved.Some? <==> Sanitize(upload.filename).Some?
      ensures saved.None? ==> files == old(files)
      ensures saved.Some? ==> IsSafe(saved.value) && saved.value !in old(files)
                              && files == old(files)[saved.value := upload.content]
                              && exists n :: IsFirstFree(old(files).Keys, Sanitize(upload.filename).value, saved.value, n)
    {
      var safe := Sanitize(upload.filename);
      if upload.filename == "" || safe.None? {
        EmptyName();
        return None;
      }
      SanitizedIsSafe(upload.filename);
      var name, tries := FreshName(files.Keys, safe.value);
      FreshIsSafe(files.Keys, safe.value, name, tries);
      files := files[name := upload.content];
      return Some(name);
    }

    /** A series of uploads: each accepted one adds a file, and every file, old or
        uploaded, keeps its content. */
    method UploadAll(uploads: seq<Upload>) returns (saved: seq<Option<string>>)
      modifies this
      ensures Keeps(old(files), files)
      ensures AllSaved(uploads, saved, old(files), files)
    {
      saved := [];
      for n := 0 to |uploads|
        invariant Keeps(old(files), files)
        invariant AllSaved(uploads[..n], saved, old(files), files)
      {
        ghost var before := files;
        var s := UploadFile(uploads[n]);
        SavedOneMore(uploads[..n], saved, old(files), before, uploads[n], s, files);
        assert uploads[..n + 1] == uploads[..n] + [uploads[n]];
        saved := saved + [s];
      }
      assert uploads[..|uploads|] == uploads;
    }
  }

  lemma EmptyName()
    ensures Sanitize("") == None
  {
  }

  lemma {:induction false} DecimalIsDigits(n: nat)
    ensures '/' !in Decimal(n) && '\\' !in Decimal(n)
  {
    if n >= 10 {
      DecimalIsDigits(n / 10);
    }
  }

  lemma FreshIsSafe(existing: set<string>, name: string, chosen: string, n: nat)
    requires IsSafe(name) && IsFirstFree(existing, name, chosen, n)
    ensures IsSafe(chosen)
  {
    if n > 0 {
      DecimalIsDigits(n);
      StemAndSuffix(name);
      assert forall x :: x in Stem(name) ==> x in Stem(name) + Suffix(name);
      assert forall x :: x in Suffix(name) ==> x in Stem(name) + Suffix(name);
      assert |chosen| >= |name| + 2;
    }
  }
}
