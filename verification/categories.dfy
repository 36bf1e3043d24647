/** The extension table and the classifier: a file's extension, lowered,
    is looked up category by category in declaration order, and the first
    category listing it wins; a file no category claims goes to "Others". */
module Categories {
  import opened Wrappers
  import opened Strings
  import opened Paths

  /** One row of the table: a folder name and the extensions it collects. */
  datatype Category = Category(name: string, extensions: seq<string>)

  /** The rows of the organizer's table. ".js" appears under both Scripts and
      Code, and ".tar.gz" is listed under Archives. */
  const Videos := Category("Videos", [".mp4", ".mov", ".avi", ".mkv", ".flv", ".webm"])
  const Pdfs := Category("PDFs", [".pdf"])
  const Archives := Category("Archives", [".zip", ".rar", ".tar.gz", ".7z", ".tar", ".gz"])
  const Images := Category("Images", [".jpg", ".jpeg", ".png", ".gif", ".svg", ".avif", ".webp", ".bmp"])
  const Scripts := Category("Scripts", [".sh", ".bash", ".py", ".js", ".rb", ".pl"])
  const Torrents := Category("Torrents", [".torrent"])
  const DebianPackages := Category("Debian_Packages", [".deb"])
  const Documents := Category("Documents", [".doc", ".docx", ".ppt", ".pptx", ".xls", ".xlsx", ".txt", ".odt", ".ods"])
  const Audio := Category("Audio", [".mp3", ".wav", ".ogg", ".flac", ".m4a"])
  const Executables := Category("Executables", [".exe", ".msi", ".dmg", ".appimage", ".bin"])
  const Fonts := Category("Fonts", [".ttf", ".otf", ".woff", ".woff2"])
  const Configs := Category("Configs", [".yml", ".yaml", ".json", ".xml", ".conf", ".config"])
  const Code := Category("Code", [".html", ".css", ".js", ".java", ".c", ".cpp", ".h", ".php"])

  /** The table in declaration order, the order the organizer scans it in. */
  const FileCategories: seq<Category> := [
    Videos, Pdfs, Archives, Images, Scripts, Torrents, DebianPackages,
    Documents, Audio, Executables, Fonts, Configs, Code
  ]

  /** The folder for files no category claims. */
  const Fallback: string := "Others"

  /** Row i is the first row of the table listing ext. */
  ghost predicate IsFirstMatch(table: seq<Category>, ext: string, i: int) {
    && 0 <= i < |table|
    && ext in table[i].extensions
    && forall j :: 0 <= j < i ==> ext !in table[j].extensions
  }

  /** Scans rows from..|table|-1 in order and reports the first that lists ext. */
  function FindFrom(table: seq<Category>, ext: string, from: nat): (r: Option<nat>)
    requires from <= |table|
    ensures r.Some? ==> from <= r.value < |table| && ext in table[r.value].extensions
    ensures r.Some? ==> forall j :: from <= j < r.value ==> ext !in table[j].extensions
    ensures r.None? <==> forall j :: from <= j < |table| ==> ext !in table[j].extensions
    decreases |table| - from
  {
    if from == |table| then None
    else if ext in table[from].extensions then Some(from)
    else FindFrom(table, ext, from + 1)
  }

  /** The row the organizer's loop stops at, if any. */
  function FirstMatch(table: seq<Category>, ext: string): (r: Option<nat>)
    ensures r.Some? ==> IsFirstMatch(table, ext, r.value)
    ensures r.None? <==> forall j :: 0 <= j < |table| ==> ext !in table[j].extensions
  {
    FindFrom(table, ext, 0)
  }

  /** The extension the organizer looks up: splitext's suffix, lowered. */
  function ExtensionOf(filename: string): (r: string)
    ensures |r| == |SplitExt(filename).ext|
    ensures r == [] || (r[0] == '.' && '.' !in r[1..])
    ensures forall i :: 0 <= i < |r| ==> !IsAsciiUpper(r[i])
    ensures forall i :: 0 <= i < |r| ==> r[i] == LowerChar(SplitExt(filename).ext[i])
  {
    var ext := SplitExt(filename).ext;
    LoweredDotSuffix(ext);
    ToLower(ext)
  }

  /** The folder a table sends an extension to: the first row listing it, or
      the fallback folder, which no row is named after. */
  function Lookup(table: seq<Category>, ext: string, fallback: string): (r: string)
    requires forall i :: 0 <= i < |table| ==> table[i].name != fallback
    ensures r == fallback <==> forall j :: 0 <= j < |table| ==> ext !in table[j].extensions
    ensures r != fallback ==> exists i :: IsFirstMatch(table, ext, i) && table[i].name == r
  {
    match FirstMatch(table, ext)
    case Some(i) => table[i].name
    case None => fallback
  }

  /** The category folder a file is sent to. */
  function Classify(filename: string): (r: string)
    ensures r == Fallback <==> forall j :: 0 <= j < |FileCategories| ==> ExtensionOf(filename) !in FileCategories[j].extensions
    ensures r != Fallback ==> exists i :: IsFirstMatch(FileCategories, ExtensionOf(filename), i) && FileCategories[i].name == r
  {
    FallbackIsNoCategory();
    Lookup(FileCategories, ExtensionOf(filename), Fallback)
  }

  /** Every row's name is a single path component. */
  lemma RowNameIsComponent(i: int)
    requires 0 <= i < |FileCategories|
    ensures FileCategories[i].name != [] && '/' !in FileCategories[i].name
  {
    assert FileCategories[i].name in ["Videos", "PDFs", "Archives", "Images", "Scripts", "Torrents",
      "Debian_Packages", "Documents", "Audio", "Executables", "Fonts", "Configs", "Code"];
  }

  /** No row of the table is itself called "Others". */
  lemma FallbackIsNoCategory()
    ensures forall i :: 0 <= i < |FileCategories| ==> FileCategories[i].name != Fallback
  {
  }

  /** An extension listed in two rows is resolved to the earlier one. */
  lemma EarlierRowWins(table: seq<Category>, ext: string, i: nat, j: nat)
    requires i < j < |table|
    requires ext in table[i].extensions && ext in table[j].extensions
    ensures FirstMatch(table, ext).Some?
    ensures FirstMatch(table, ext).value <= i
  {
  }

  /** The looked-up extension is empty or a single dot-suffix, so it is never a
      two-segment suffix such as ".tar.gz": that entry of the table is dead. */
  lemma TarGzNeverLookedUp(filename: string)
    ensures ExtensionOf(filename) != ".tar.gz"
  {
    var ext := SplitExt(filename).ext;
    if |ext| == 7 {
      ToLowerKeepsNonLetter(ext, '.', 4);
      assert ext[1..][3] == ext[4];
    }
  }

  /** Classification ignores ASCII case: a name and its lowered form land in
      the same folder. */
  lemma ClassifyIgnoresCase(filename: string)
    ensures Classify(ToLower(filename)) == Classify(filename)
  {
    var ext := SplitExt(filename).ext;
    SplitExtOfLower(filename);
    ToLowerIdempotent(ext);
  }

  /** A name with no extension at all (no dot, or only leading dots) goes to "Others". */
  lemma NoExtensionGoesToOthers(filename: string)
    requires SplitExt(filename).ext == []
    ensures Classify(filename) == Fallback
  {
    assert ExtensionOf(filename) == [];
    EmptyInNoRow();
  }

  /** The scan stops at the first row listing the extension, and only there. */
  lemma FirstMatchIsFirstRow(table: seq<Category>, ext: string, i: nat)
    requires IsFirstMatch(table, ext, i)
    ensures FirstMatch(table, ext) == Some(i)
  {
  }

  /** The table's 13 folder names, in declaration order. */
  lemma TableNames()
    ensures |FileCategories| == 13
    ensures FileCategories[0].name == "Videos" && FileCategories[1].name == "PDFs"
    ensures FileCategories[2].name == "Archives" && FileCategories[3].name == "Images"
    ensures FileCategories[4].name == "Scripts" && FileCategories[5].name == "Torrents"
    ensures FileCategories[6].name == "Debian_Packages" && FileCategories[7].name == "Documents"
    ensures FileCategories[8].name == "Audio" && FileCategories[9].name == "Executables"
    ensures FileCategories[10].name == "Fonts" && FileCategories[11].name == "Configs"
    ensures FileCategories[12].name == "Code"
  {
  }

  /** ".js" is listed in row 4 (Scripts) and in row 12 (Code); the scan stops at row 4. */
  lemma JsRowIsScripts()
    ensures ".js" in FileCategories[12].extensions
    ensures FirstMatch(FileCategories, ".js") == Some(4)
  {
    FirstMatchIsFirstRow(FileCategories, ".js", 4);
  }

  /** A ".js" file always lands in Scripts, never in Code. */
  lemma ScriptsShadowsCode(filename: string)
    requires ExtensionOf(filename) == ".js"
    ensures Classify(filename) == "Scripts"
  {
    JsRowIsScripts();
    TableNames();
  }

  lemma PdfRow()
    ensures FirstMatch(FileCategories, ".pdf") == Some(1)
  {
    FirstMatchIsFirstRow(FileCategories, ".pdf", 1);
  }

  lemma JpgRow()
    ensures FirstMatch(FileCategories, ".jpg") == Some(3)
  {
    FirstMatchIsFirstRow(FileCategories, ".jpg", 3);
  }

  lemma Mp4Row()
    ensures FirstMatch(FileCategories, ".mp4") == Some(0)
  {
    FirstMatchIsFirstRow(FileCategories, ".mp4", 0);
  }

  lemma GzRow()
    ensures FirstMatch(FileCategories, ".gz") == Some(2)
  {
    FirstMatchIsFirstRow(FileCategories, ".gz", 2);
  }

  lemma TxtRow()
    ensures FirstMatch(FileCategories, ".txt") == Some(7)
    ensures FileCategories[7].name == "Documents"
  {
    FirstMatchIsFirstRow(FileCategories, ".txt", 7);
  }

  lemma XyzInLaterRows()
    ensures FindFrom(FileCategories, ".xyz", 7) == None
  {
    assert ".xyz" !in Documents.extensions && ".xyz" !in Audio.extensions;
    assert ".xyz" !in Executables.extensions && ".xyz" !in Fonts.extensions;
    assert ".xyz" !in Configs.extensions && ".xyz" !in Code.extensions;
  }

  lemma XyzInNoRow()
    ensures FirstMatch(FileCategories, ".xyz") == None
  {
    XyzInLaterRows();
    assert ".xyz" !in Videos.extensions && ".xyz" !in Pdfs.extensions;
    assert ".xyz" !in Archives.extensions && ".xyz" !in Images.extensions;
    assert ".xyz" !in Scripts.extensions && ".xyz" !in Torrents.extensions;
    assert ".xyz" !in DebianPackages.extensions;
  }

  /** The empty extension is listed in no row. */
  lemma EmptyInLaterRows()
    ensures FindFrom(FileCategories, "", 7) == None
  {
    assert "" !in Documents.extensions && "" !in Audio.extensions;
    assert "" !in Executables.extensions && "" !in Fonts.extensions;
    assert "" !in Configs.extensions && "" !in Code.extensions;
  }

  lemma EmptyInNoRow()
    ensures FirstMatch(FileCategories, "") == None
  {
    EmptyInLaterRows();
    assert "" !in Videos.extensions && "" !in Pdfs.extensions;
    assert "" !in Archives.extensions && "" !in Images.extensions;
    assert "" !in Scripts.extensions && "" !in Torrents.extensions;
    assert "" !in DebianPackages.extensions;
  }

  lemma LowerPdf()
    ensures ToLower(".PDF") == ".pdf"
  {
    assert LowerChar('P') == 'p' && LowerChar('D') == 'd' && LowerChar('F') == 'f';
  }

  /** The extension of "report.PDF" is ".pdf": the last dot is at index 6 and
      the suffix is lowered. */
  lemma ExtensionOfReportPdf()
    ensures ExtensionOf("report.PDF") == ".pdf"
  {
    ExtOfStemDotSuffix("report", "PDF");
    assert "report" + "." + "PDF" == "report.PDF";
    LowerPdf();
  }

  lemma LowerJpg()
    ensures ToLower(".JPG") == ".jpg"
  {
    assert LowerChar('J') == 'j' && LowerChar('P') == 'p' && LowerChar('G') == 'g';
  }

  lemma ExtensionOfUpperJpg()
    ensures ExtensionOf("x.JPG") == ".jpg"
  {
    ExtOfStemDotSuffix("x", "JPG");
    assert "x" + "." + "JPG" == "x.JPG";
    LowerJpg();
  }

  lemma LowerMp4()
    ensures ToLower(".mp4") == ".mp4"
  {
    ToLowerOfLower(".mp4");
  }

  lemma ExtensionOfMovie()
    ensures ExtensionOf("movie.mp4") == ".mp4"
  {
    ExtOfStemDotSuffix("movie", "mp4");
    assert "movie" + "." + "mp4" == "movie.mp4";
    LowerMp4();
  }

  lemma LowerGz()
    ensures ToLower(".gz") == ".gz"
  {
    ToLowerOfLower(".gz");
  }

  /** Only the final suffix ".gz" of "archive.tar.gz" is its extension. */
  lemma ExtensionOfTarGz()
    ensures ExtensionOf("archive.tar.gz") == ".gz"
  {
    ExtOfStemDotSuffix("archive.tar", "gz");
    assert "archive.tar" + "." + "gz" == "archive.tar.gz";
    LowerGz();
  }

  lemma LowerXyz()
    ensures ToLower(".xyz") == ".xyz"
  {
    ToLowerOfLower(".xyz");
  }

  lemma ExtensionOfUnknown()
    ensures ExtensionOf("unknown.xyz") == ".xyz"
  {
    ExtOfStemDotSuffix("unknown", "xyz");
    assert "unknown" + "." + "xyz" == "unknown.xyz";
    LowerXyz();
  }

  lemma LowerTxt()
    ensures ToLower(".txt") == ".txt"
  {
    ToLowerOfLower(".txt");
  }

  lemma ExtensionOfATxt()
    ensures ExtensionOf("a.txt") == ".txt"
  {
    ExtOfStemDotSuffix("a", "txt");
    assert "a" + "." + "txt" == "a.txt";
    LowerTxt();
  }

  /** "a.txt" goes to Documents. */
  lemma ClassifyATxt()
    ensures Classify("a.txt") == "Documents"
  {
    ExtensionOfATxt();
    TxtRow();
  }

  /** "report.PDF" goes to PDFs: the upper-case extension is lowered before lookup. */
  lemma ClassifyReportPdf()
    ensures Classify("report.PDF") == "PDFs"
  {
    ExtensionOfReportPdf();
    PdfRow();
    TableNames();
  }

  /** "x.JPG" goes to Images. */
  lemma ClassifyUpperJpg()
    ensures Classify("x.JPG") == "Images"
  {
    ExtensionOfUpperJpg();
    JpgRow();
    TableNames();
  }

  /** "movie.mp4" goes to Videos. */
  lemma ClassifyMovie()
    ensures Classify("movie.mp4") == "Videos"
  {
    ExtensionOfMovie();
    Mp4Row();
    TableNames();
  }

  /** "archive.tar.gz" reaches Archives through ".gz", not through ".tar.gz". */
  lemma ClassifyTarGz()
    ensures Classify("archive.tar.gz") == "Archives"
  {
    ExtensionOfTarGz();
    GzRow();
    TableNames();
  }

  /** "unknown.xyz" falls back to Others. */
  lemma ClassifyUnknown()
    ensures Classify("unknown.xyz") == Fallback
  {
    ExtensionOfUnknown();
    XyzInNoRow();
  }
}
