/** Whole-handler scenarios: a name collision in an existing folder, and the
    startup sweep over a small download folder. */
module Scenarios {
  import opened Wrappers
  import opened Strings
  import opened Categories
  import opened FileSystem
  import opened Collision
  import opened Paths
  import opened Organizer

  /** None of the in-progress suffixes ends the name. */
  lemma NotInProgress(filename: string)
    requires !EndsWith(filename, ".part")
    requires !EndsWith(filename, ".crdownload")
    requires !EndsWith(filename, ".tmp")
    ensures !IsInProgress(filename)
  {
  }

  /** The handler's success path, assembled from its steps. */
  lemma MovedBySteps(t: Root, filename: string, category: string, t1: Root, newName: string)
    requires Screen(t, filename) == None
    requires Classify(filename) == category
    requires MakeDirs(t, category) == Success(t1)
    requires ResolveName(t1.folders[category].Entries(), filename) == newName
    ensures ProcessFile(t, filename) == Moved(category, newName, Move(t1, filename, category, newName))
  {
  }

  // A second "a.txt" arrives while Documents already holds "a.txt" and "a_1.txt".

  const CollisionStart := Root({"a.txt"}, map["Documents" := Folder({"a.txt", "a_1.txt"}, {})])
  const CollisionEnd := Root({}, map["Documents" := Folder({"a.txt", "a_1.txt", "a_2.txt"}, {})])

  lemma ATxtIsMovable()
    ensures Movable("a.txt")
  {
    var f := "a.txt";
    assert f[1..] == ".txt" && f[0] == 'a';
    NotInProgress(f);
  }

  lemma CollisionMove()
    ensures Move(CollisionStart, "a.txt", "Documents", "a_2.txt") == CollisionEnd
  {
    var m := Move(CollisionStart, "a.txt", "Documents", "a_2.txt");
    assert m.files == {};
    assert m.folders["Documents"].files == {"a.txt", "a_1.txt", "a_2.txt"};
    assert m.folders.Keys == {"Documents"};
  }

  /** The newcomer is stored as "a_2.txt" and the root is left empty. */
  lemma CollisionInDocuments()
    ensures ProcessFile(CollisionStart, "a.txt") == Moved("Documents", "a_2.txt", CollisionEnd)
  {
    ATxtIsMovable();
    assert Screen(CollisionStart, "a.txt") == None;
    ClassifyATxt();
    assert MakeDirs(CollisionStart, "Documents") == Success(CollisionStart);
    SecondCollision();
    assert CollisionStart.folders["Documents"].Entries() == {"a.txt", "a_1.txt"};
    MovedBySteps(CollisionStart, "a.txt", "Documents", CollisionStart, "a_2.txt");
    CollisionMove();
  }

  // A regular file in the root that is itself called "Others".

  lemma OthersMovable()
    ensures Movable("Others") && SplitExt("Others").ext == []
  {
    var f := "Others";
    assert f[0] == 'O' && f[2..] == "hers";
    NotInProgress(f);
    SplitExtOfVisibleName(f);
  }

  /** A file named like the fallback folder, with no such folder yet, makes
      the folder creation fail: the handler raises instead of moving. */
  lemma FileNamedLikeFolderFails(t: Root)
    requires "Others" in t.files && "Others" !in t.folders
    ensures ProcessFile(t, "Others") == Failed(FileExists("Others"))
  {
    OthersMovable();
    NoExtensionGoesToOthers("Others");
  }

  // The startup sweep over a folder holding a video, a dotfile, an upper-case
  // PDF, a two-suffix archive and a file of unknown type.

  const Listing := ["movie.mp4", ".DS_Store", "report.PDF", "archive.tar.gz", "unknown.xyz"]

  const Initial := Root({"movie.mp4", ".DS_Store", "report.PDF", "archive.tar.gz", "unknown.xyz"}, map[])
  const AfterMovie := Root({".DS_Store", "report.PDF", "archive.tar.gz", "unknown.xyz"},
                      map["Videos" := Folder({"movie.mp4"}, {})])
  const AfterReport := Root({".DS_Store", "archive.tar.gz", "unknown.xyz"},
                      map["Videos" := Folder({"movie.mp4"}, {}), "PDFs" := Folder({"report.PDF"}, {})])
  const AfterArchive := Root({".DS_Store", "unknown.xyz"},
                      map["Videos" := Folder({"movie.mp4"}, {}), "PDFs" := Folder({"report.PDF"}, {}),
                          "Archives" := Folder({"archive.tar.gz"}, {})])
  const AfterUnknown := Root({".DS_Store"},
                      map["Videos" := Folder({"movie.mp4"}, {}), "PDFs" := Folder({"report.PDF"}, {}),
                          "Archives" := Folder({"archive.tar.gz"}, {}), "Others" := Folder({"unknown.xyz"}, {})])

  /** Moving a file into a freshly created, empty category folder keeps its name. */
  lemma IntoNewFolder(t: Root, filename: string, category: string)
    requires filename in t.files && Movable(filename)
    requires Classify(filename) == category
    requires category !in t.folders && category !in t.files
    ensures ProcessFile(t, filename)
            == Moved(category, filename, Root(t.files - {filename}, t.folders[category := Folder({filename}, {})]))
  {
    var t1 := Root(t.files, t.folders[category := EmptyFolder]);
    assert MakeDirs(t, category) == Success(t1);
    assert t1.folders[category].Entries() == {};
    assert ResolveName(t1.folders[category].Entries(), filename) == filename;
    MovedBySteps(t, filename, category, t1, filename);
    assert {} + {filename} == {filename};
    assert t1.folders[category := Folder({filename}, {})] == t.folders[category := Folder({filename}, {})];
  }

  lemma MovieMovable()
    ensures Movable("movie.mp4")
  {
    var f := "movie.mp4";
    assert f[5..] == ".mp4" && f[6..] == "mp4" && f[0] == 'm';
    NotInProgress(f);
  }

  /** "movie.mp4" goes to Videos under its own name whenever that folder is still missing. */
  lemma MovieStep(t: Root)
    requires "movie.mp4" in t.files && "Videos" !in t.files && "Videos" !in t.folders
    ensures ProcessFile(t, "movie.mp4")
            == Moved("Videos", "movie.mp4", Root(t.files - {"movie.mp4"}, t.folders["Videos" := Folder({"movie.mp4"}, {})]))
  {
    MovieMovable();
    ClassifyMovie();
    IntoNewFolder(t, "movie.mp4", "Videos");
  }

  lemma ReportMovable()
    ensures Movable("report.PDF")
  {
    var f := "report.PDF";
    assert f[6..] == ".PDF" && f[0] == 'r';
    NotInProgress(f);
  }

  /** "report.PDF" goes to PDFs under its own name whenever that folder is still missing. */
  lemma ReportStep(t: Root)
    requires "report.PDF" in t.files && "PDFs" !in t.files && "PDFs" !in t.folders
    ensures ProcessFile(t, "report.PDF")
            == Moved("PDFs", "report.PDF", Root(t.files - {"report.PDF"}, t.folders["PDFs" := Folder({"report.PDF"}, {})]))
  {
    ReportMovable();
    ClassifyReportPdf();
    IntoNewFolder(t, "report.PDF", "PDFs");
  }

  lemma ArchiveMovable()
    ensures Movable("archive.tar.gz")
  {
    var f := "archive.tar.gz";
    assert f[11..] == ".gz" && f[10..] == "r.gz" && f[0] == 'a';
    NotInProgress(f);
  }

  /** "archive.tar.gz" goes to Archives under its own name whenever that folder is still missing. */
  lemma ArchiveStep(t: Root)
    requires "archive.tar.gz" in t.files && "Archives" !in t.files && "Archives" !in t.folders
    ensures ProcessFile(t, "archive.tar.gz")
            == Moved("Archives", "archive.tar.gz", Root(t.files - {"archive.tar.gz"}, t.folders["Archives" := Folder({"archive.tar.gz"}, {})]))
  {
    ArchiveMovable();
    ClassifyTarGz();
    IntoNewFolder(t, "archive.tar.gz", "Archives");
  }

  lemma UnknownMovable()
    ensures Movable("unknown.xyz")
  {
    var f := "unknown.xyz";
    assert f[7..] == ".xyz" && f[8..] == "xyz" && f[0] == 'u';
    NotInProgress(f);
  }

  /** "unknown.xyz" goes to Fallback under its own name whenever that folder is still missing. */
  lemma UnknownStep(t: Root)
    requires "unknown.xyz" in t.files && Fallback !in t.files && Fallback !in t.folders
    ensures ProcessFile(t, "unknown.xyz")
            == Moved(Fallback, "unknown.xyz", Root(t.files - {"unknown.xyz"}, t.folders[Fallback := Folder({"unknown.xyz"}, {})]))
  {
    UnknownMovable();
    ClassifyUnknown();
    IntoNewFolder(t, "unknown.xyz", Fallback);
  }

  lemma DotfileStep(t: Root)
    ensures ProcessFile(t, ".DS_Store").Skipped?
  {
    assert IsHidden(".DS_Store");
  }

  lemma MovieState()
    ensures Root(Initial.files - {"movie.mp4"}, Initial.folders["Videos" := Folder({"movie.mp4"}, {})]) == AfterMovie
  {
    assert Initial.files - {"movie.mp4"} == AfterMovie.files;
  }

  lemma ReportState()
    ensures Root(AfterMovie.files - {"report.PDF"}, AfterMovie.folders["PDFs" := Folder({"report.PDF"}, {})]) == AfterReport
  {
    assert AfterMovie.files - {"report.PDF"} == AfterReport.files;
  }

  lemma ArchiveState()
    ensures Root(AfterReport.files - {"archive.tar.gz"}, AfterReport.folders["Archives" := Folder({"archive.tar.gz"}, {})]) == AfterArchive
  {
    assert AfterReport.files - {"archive.tar.gz"} == AfterArchive.files;
  }

  lemma UnknownState()
    ensures Root(AfterArchive.files - {"unknown.xyz"}, AfterArchive.folders[Fallback := Folder({"unknown.xyz"}, {})]) == AfterUnknown
  {
    assert AfterArchive.files - {"unknown.xyz"} == AfterUnknown.files;
  }

  lemma SweepLastFile()
    ensures Sweep(AfterArchive, ["unknown.xyz"]) == Finished(AfterUnknown)
  {
    UnknownStep(AfterArchive);
    UnknownState();
  }

  lemma SweepLastTwoFiles()
    ensures Sweep(AfterReport, ["archive.tar.gz", "unknown.xyz"]) == Finished(AfterUnknown)
  {
    ArchiveStep(AfterReport);
    ArchiveState();
    assert ["archive.tar.gz", "unknown.xyz"][1..] == ["unknown.xyz"];
    SweepLastFile();
  }

  lemma SweepLastFourFiles()
    ensures Sweep(AfterMovie, [".DS_Store", "report.PDF", "archive.tar.gz", "unknown.xyz"]) == Finished(AfterUnknown)
  {
    DotfileStep(AfterMovie);
    assert [".DS_Store", "report.PDF", "archive.tar.gz", "unknown.xyz"][1..] == ["report.PDF", "archive.tar.gz", "unknown.xyz"];
    ReportStep(AfterMovie);
    ReportState();
    assert ["report.PDF", "archive.tar.gz", "unknown.xyz"][1..] == ["archive.tar.gz", "unknown.xyz"];
    SweepLastTwoFiles();
  }

  /** After the sweep the dotfile alone is left in the root, and every other
      file sits in its category folder under its own name. */
  lemma SweepScenario()
    ensures Sweep(Initial, Listing) == Finished(AfterUnknown)
  {
    MovieStep(Initial);
    MovieState();
    assert Listing[1..] == [".DS_Store", "report.PDF", "archive.tar.gz", "unknown.xyz"];
    SweepLastFourFiles();
  }
}
