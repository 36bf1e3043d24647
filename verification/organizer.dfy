/** The organizer's handling of one file in the watched root, and the startup
    sweep over the root's listing. A file is skipped when it is not a regular
    file, is hidden, or is still being downloaded; otherwise it is classified,
    its category folder is created if missing, a free name is chosen there,
    and the file is moved. */
module Organizer {
  import opened Wrappers
  import opened Strings
  import opened Paths
  import opened Categories
  import opened FileSystem
  import opened Collision

  /** Suffixes of files a browser or downloader is still writing. */
  const InProgressSuffixes: seq<string> := [".part", ".crdownload", ".tmp"]

  /** Dotfiles are never touched. */
  predicate IsHidden(filename: string) {
    StartsWith(filename, ".")
  }

  /** The name ends with one of the in-progress suffixes, compared exactly
      (before any lower-casing). */
  predicate IsInProgress(filename: string) {
    exists i :: 0 <= i < |InProgressSuffixes| && EndsWith(filename, InProgressSuffixes[i])
  }

  /** The name alone does not disqualify the file. */
  predicate Movable(filename: string) {
    !IsHidden(filename) && !IsInProgress(filename)
  }

  datatype SkipReason = NotARegularFile | HiddenFile | StillDownloading

  /** What handling one file amounts to. A skipped file and a failed call
      leave the filesystem as it was; a moved file carries the new state. */
  datatype Outcome =
    | Skipped(reason: SkipReason)
    | Moved(category: string, newName: string, after: Root)
    | Failed(error: FsError)

  /** The filesystem after an outcome. */
  function After(t: Root, o: Outcome): Root {
    if o.Moved? then o.after else t
  }

  /** The early returns of the handler, in the order it tests them. */
  function Screen(t: Root, filename: string): (r: Option<SkipReason>)
    ensures r.None? <==> filename in t.files && Movable(filename)
    ensures r == Some(NotARegularFile) <==> filename !in t.files
    ensures r == Some(StillDownloading) <==> filename in t.files && !IsHidden(filename) && IsInProgress(filename)
  {
    if filename !in t.files then Some(NotARegularFile)
    else if IsHidden(filename) then Some(HiddenFile)
    else if IsInProgress(filename) then Some(StillDownloading)
    else None
  }

  /** The destination folder's contents before the move (empty when the
      folder does not exist yet). */
  function FolderBefore(t: Root, category: string): Folder {
    if category in t.folders then t.folders[category] else EmptyFolder
  }

  /** t' is t with `filename` moved from the root into folder `category` under
      `newName`, the free name collision resolution picks there, and with
      nothing else changed. */
  ghost predicate Relocated(t: Root, filename: string, category: string, newName: string, t': Root) {
    var before := FolderBefore(t, category);
    && newName == ResolveName(before.Entries(), filename)
    && newName !in before.Entries()
    && t'.files == t.files - {filename}
    && t'.folders.Keys == t.folders.Keys + {category}
    && t'.folders[category] == Folder(before.files + {newName}, before.dirs)
    && forall c :: c in t.folders && c != category ==> t'.folders[c] == t.folders[c]
  }

  /** The handler for one path `root/filename`. */
  function ProcessFile(t: Root, filename: string): (o: Outcome)
    ensures o.Skipped? <==> !(filename in t.files && Movable(filename))
    ensures o.Skipped? ==> Screen(t, filename) == Some(o.reason)
    ensures o.Failed? <==>
      && filename in t.files && Movable(filename)
      && Classify(filename) !in t.folders && Classify(filename) in t.files
    ensures o.Failed? ==> o.error == FileExists(Classify(filename))
    ensures o.Moved? ==> o.category == Classify(filename)
    ensures o.Moved? ==> Relocated(t, filename, o.category, o.newName, o.after)
  {
    match Screen(t, filename)
    case Some(reason) => Skipped(reason)
    case None =>
      var category := Classify(filename);
      match MakeDirs(t, category)
      case Failure(e) => Failed(e)
      case Success(t1) =>
        var newName := ResolveName(t1.folders[category].Entries(), filename);
        Moved(category, newName, Move(t1, filename, category, newName))
  }

  /** Hidden and in-progress names are skipped whatever the filesystem holds,
      and the filesystem is left as it was. */
  lemma NameRulesSkip(t: Root, filename: string)
    requires IsHidden(filename) || IsInProgress(filename)
    ensures ProcessFile(t, filename).Skipped?
    ensures After(t, ProcessFile(t, filename)) == t
  {
  }

  /** The in-progress test is case-sensitive: ".PART" is not ".part". */
  lemma InProgressIsCaseSensitive()
    ensures IsInProgress("movie.part")
    ensures !IsInProgress("movie.PART")
  {
    assert EndsWith("movie.part", InProgressSuffixes[0]);
    assert "movie.PART"[5..] == ".PART";
    assert "movie.PART"[8..] == "RT";
  }

  /** The root's subdirectories, the category folders among them, are not
      regular files and are skipped. */
  lemma FoldersAreSkipped(t: Root, name: string)
    requires Valid(t) && name in t.folders
    ensures ProcessFile(t, name) == Skipped(NotARegularFile)
  {
  }

  /** Handling a file a second time, once it has been moved, is a skip and
      never a failure. */
  lemma ProcessTwiceSkips(t: Root, filename: string)
    requires ProcessFile(t, filename).Moved?
    ensures ProcessFile(ProcessFile(t, filename).after, filename) == Skipped(NotARegularFile)
  {
  }

  /** Every category name is a single path component. */
  lemma ClassifyGivesValidName(filename: string)
    ensures ValidName(Classify(filename))
  {
    var r := Classify(filename);
    if r != Fallback {
      var i :| IsFirstMatch(FileCategories, ExtensionOf(filename), i) && FileCategories[i].name == r;
      RowNameIsComponent(i);
    }
  }

  /** The name collision resolution picks is a single path component. */
  lemma ResolvedNameIsValid(taken: set<string>, filename: string)
    requires ValidName(filename)
    ensures ValidName(ResolveName(taken, filename))
  {
    if filename in taken {
      var s := SplitExt(filename);
      var k := Probe(taken, s.stem, s.ext, 1);
      assert ResolveName(taken, filename) == Candidate(s.stem, s.ext, k);
      assert '/' !in s.stem && '/' !in s.ext;
      NatToStringHasNoSlash(k);
    }
  }

  /** Handling a file keeps the root well-formed: in particular the new name
      clashes neither with a file nor with a subdirectory of its folder. */
  lemma ProcessPreservesValid(t: Root, filename: string)
    requires Valid(t)
    ensures Valid(After(t, ProcessFile(t, filename)))
  {
    var o := ProcessFile(t, filename);
    if o.Moved? {
      ClassifyGivesValidName(filename);
      ResolvedNameIsValid(FolderBefore(t, o.category).Entries(), filename);
      var t' := o.after;
      forall c | c in t'.folders
        ensures ValidName(c) && ValidFolder(t'.folders[c])
      {
        if c == o.category && o.category !in t.folders {
          assert t'.folders[c] == Folder({o.newName}, {});
        }
      }
    }
  }

  /** The names of a listing that the name rules let through. */
  function MovableIn(listing: seq<string>): set<string> {
    set n | n in listing && Movable(n)
  }

  /** The movable names of a listing are those of its head and of its tail. */
  lemma MovableInCons(listing: seq<string>)
    requires listing != []
    ensures MovableIn(listing) == (if Movable(listing[0]) then {listing[0]} else {}) + MovableIn(listing[1..])
  {
    assert listing == [listing[0]] + listing[1..];
  }

  /** How a sweep ends: with every entry handled, or at the first failure
      (the sweep does not catch errors), with the state reached so far. */
  datatype SweepResult = Finished(root: Root) | Aborted(error: FsError, root: Root)

  /** The startup sweep: every entry of a snapshot of the root's listing is
      handled in listing order. */
  function Sweep(t: Root, listing: seq<string>): (r: SweepResult)
    ensures r.Finished? ==> r.root.files == t.files - MovableIn(listing)
    ensures t.folders.Keys <= r.root.folders.Keys
    ensures r.Aborted? ==> r.error.name !in r.root.folders && r.error.name in r.root.files
    decreases |listing|
  {
    if listing == [] then Finished(t)
    else
      var rest := listing[1..];
      MovableInCons(listing);
      match ProcessFile(t, listing[0])
      case Failed(e) => Aborted(e, t)
      case Skipped(_) => Sweep(t, rest)
      case Moved(_, _, t1) => Sweep(t1, rest)
  }

  /** A sweep keeps the root well-formed. */
  lemma {:induction false} SweepPreservesValid(t: Root, listing: seq<string>)
    requires Valid(t)
    ensures Valid(Sweep(t, listing).root)
    decreases |listing|
  {
    if listing != [] {
      ProcessPreservesValid(t, listing[0]);
      var o := ProcessFile(t, listing[0]);
      if !o.Failed? {
        SweepPreservesValid(After(t, o), listing[1..]);
      }
    }
  }
}
