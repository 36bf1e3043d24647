# Download organizer: a Dafny model of the file-sorting core

The download organizer watches one folder (the "Downloads" root). It moves each finished download into a sub-folder named after the file's type.

This project models the sorting decision and its effect on the filesystem, using pure functions over immutable data:

- **Name rules.** A path is left alone when it is not a regular file, when its basename starts with `.`, or when it ends in `.part`, `.crdownload` or `.tmp`. The suffix test is exact and case-sensitive.
- **Classification.** The extension is what `os.path.splitext` returns: the last dot and what follows it, provided a non-dot character precedes that dot. It is lower-cased and then looked up in the category table in declaration order. The first category listing it wins, and a file no category claims goes to `Others`.
- **Destination.** The category folder is created when missing, and this fails when a regular file of that name sits in the root. The file keeps its name if the name is free in the folder. Otherwise it takes `{stem}_{n}{ext}` for the least `n >= 1` that is free.
- **Move.** The file leaves the root and appears in the folder under the chosen name. Nothing else changes.
- **Startup sweep.** Every entry of a snapshot of the root listing is handled in listing order.

Two consequences of the table and of `splitext` are proved rather than assumed:

- `.js` is listed under both Scripts and Code, and always lands in Scripts.
- The `.tar.gz` entry can never match, because the looked-up extension is a single dot-suffix. `archive.tar.gz` reaches Archives through `.gz`.

The filesystem is `FileSystem.Root`. It holds the regular files directly in the root and a map from sub-folder name to `Folder`, which holds that folder's regular files and subdirectory names. "Exists" in a folder means either kind of entry.

Modules:

| file | module | what it holds |
|---|---|---|
| wrappers.dfy | Wrappers | `Option`, `Result` |
| strings.dfy | Strings | ASCII lower-casing, prefix/suffix tests, decimal rendering of the counter |
| paths.dfy | Paths | `rfind` and `os.path.splitext` on a basename |
| categories.dfy | Categories | the category table and the classifier |
| collision.dfy | Collision | the free-name probe |
| filesystem.dfy | FileSystem | root and folders, `makedirs`, `move` |
| organizer.dfy | Organizer | `process_file` and the startup sweep |
| scenarios.dfy | Scenarios | whole-handler examples: a collision, a sweep, a failing `makedirs` |

Everything the source references outside this core is either a parameter or left out (see below). That covers the watched path, the listing order of `os.listdir`, the clock, logging and the watchdog events.

## Model

| member | source | states |
|---|---|---|
| Strings.ToLower | organizer.py:63 | `str.lower()` on ASCII: same length, each character lowered in place, no capital left |
| Strings.ToLowerIdempotent | organizer.py:63 | lowering an already lowered extension changes nothing |
| Strings.NatToString | organizer.py:81 | the rendered counter is non-empty, all digits, and has no leading zero unless it is 0 |
| Strings.ParseNatToString | organizer.py:81 | reading the rendered counter back gives the counter (round trip) |
| Strings.NatToStringInjective | organizer.py:81 | different counters render to different strings |
| Paths.RFind | organizer.py:62 | the index found holds the character and none follows it; -1 exactly when the character is absent |
| Paths.RFindAt | organizer.py:62 | a last occurrence is the index rfind reports |
| Paths.HasExtensionIff | organizer.py:62 | splitext's test holds exactly when a non-dot character is followed later by a dot |
| Paths.SplitExt | organizer.py:62 | stem + ext is the name; ext is empty or one dot-suffix with no further dot; ext is non-empty exactly when a non-dot character precedes a later dot; a non-empty ext has a non-empty stem |
| Paths.SplitExtOfVisibleName | organizer.py:62 | for a name not starting with a dot, the extension exists iff the name has a dot, and then starts at the last dot |
| Paths.ExtOfStemDotSuffix | organizer.py:62 | a stem not starting with a dot, then a dot, then a dot-free suffix: the extension is that dot and suffix |
| Paths.SplitExtOfLower | organizer.py:62-63 | splitting the lowered name gives the lowered extension |
| Categories.FindFrom | organizer.py:66-69 | the row found lists the extension and no earlier scanned row does; None exactly when no remaining row lists it |
| Categories.FirstMatch | organizer.py:66-69 | the scan's answer is the first row listing the extension, None iff no row does |
| Categories.Lookup | organizer.py:65-72 | for any table whose rows are not named like the fallback: the fallback iff no row lists the extension, otherwise the name of the first row that does |
| Categories.ExtensionOf | organizer.py:62-63 | the looked-up extension is splitext's suffix with each character lowered in place: as long as that suffix, character i the lower-case form of its character i, so empty or a single dot-suffix, with no capital letter |
| Categories.Classify | organizer.py:62-72 | the folder is "Others" iff no row lists the lowered splitext extension, otherwise the name of the first row that does |
| Categories.FallbackIsNoCategory | organizer.py:26-40 | no table row is named "Others", so a fallback is never confused with a match |
| Categories.RowNameIsComponent | organizer.py:26-40 | every category name is a non-empty name without a separator |
| Categories.EarlierRowWins | organizer.py:66-69 | an extension listed in two rows resolves to the earlier row or one before it |
| Categories.FirstMatchIsFirstRow | organizer.py:66-69 | the scan stops at the first row listing the extension |
| Categories.JsRowIsScripts | organizer.py:31-39 | ".js" is listed under Code, yet the scan stops at Scripts |
| Categories.ScriptsShadowsCode | organizer.py:31-39 | every file with extension ".js" goes to Scripts, never Code |
| Categories.TarGzNeverLookedUp | organizer.py:29-62 | the looked-up extension is never ".tar.gz", so that table entry is dead |
| Categories.ClassifyIgnoresCase | organizer.py:62-63 | a name and its lower-cased form go to the same folder |
| Categories.NoExtensionGoesToOthers | organizer.py:62-72 | a name without an extension goes to "Others" |
| Categories.TableNames | organizer.py:26-40 | the table has 13 rows whose folder names are the source's, in declaration order |
| Categories.ClassifyReportPdf | organizer.py:62-69 | "report.PDF" goes to PDFs: the extension is lowered before lookup |
| Categories.ClassifyUpperJpg | organizer.py:62-69 | "x.JPG" goes to Images |
| Categories.ClassifyMovie | organizer.py:62-69 | "movie.mp4" goes to Videos |
| Categories.ClassifyTarGz | organizer.py:62-69 | "archive.tar.gz" goes to Archives through ".gz" |
| Categories.ClassifyUnknown | organizer.py:62-72 | "unknown.xyz" goes to Others |
| Categories.ClassifyATxt | organizer.py:62-69 | "a.txt" goes to Documents |
| Collision.CandidateParts | organizer.py:81 | a candidate is the stem, then `_`, then the counter's decimal digits, then the extension |
| Collision.CandidateInjective | organizer.py:81 | two counters giving the same candidate name are equal |
| Collision.CandidateIsNotOriginal | organizer.py:78-81 | a candidate is never the original stem + ext |
| Collision.NotYetSeen | organizer.py:79-83 | a counter's candidate is not among those of smaller counters |
| Collision.LeastFreeUnique | organizer.py:79-83 | the least free counter is unique |
| Collision.Probe | organizer.py:79-83 | probing from n returns a counter k >= n whose candidate is free, with every candidate in [n, k) taken; it terminates because taken names are finite and candidates distinct |
| Collision.ResolveName | organizer.py:76-83 | the chosen name is never taken; it is the file's own name when that is free, otherwise the candidate with the least free counter >= 1 |
| Collision.FindFreeName | organizer.py:76-83 | the source's loop (counter from 1, re-check, keep the last name tried) computes exactly ResolveName |
| Collision.SecondCollision | organizer.py:76-83 | with "a.txt" and "a_1.txt" taken, "a.txt" becomes "a_2.txt" |
| FileSystem.Move | organizer.py:85 | the file leaves the root's files, the set of folders is unchanged, the destination folder gains exactly the new name, and every other folder is unchanged |
| FileSystem.MakeDirs | organizer.py:74 | fails exactly when no folder but a regular file has the name; otherwise files are kept, the folder set gains the name, existing folders are unchanged and a new folder is empty |
| FileSystem.MakeDirsIdempotent | organizer.py:74 | creating an existing folder again changes nothing (exist_ok) |
| FileSystem.MakeDirsPreservesValid | organizer.py:74 | creating a folder keeps the root well-formed |
| Organizer.Screen | organizer.py:53-60 | no early return exactly when the name is a regular file, not hidden and not in progress; "not a regular file" exactly when absent from the root's files |
| Organizer.ProcessFile | organizer.py:52-86 | skipped iff not a movable regular file, with the matching reason; fails iff the category is not a folder but is a regular file in the root, raising FileExists on the category; otherwise moved to Classify's folder under ResolveName's free name, with the file gone from the root, exactly that one name added to the folder and every other folder and file unchanged |
| Organizer.NameRulesSkip | organizer.py:53-60 | hidden and in-progress names are skipped whatever the filesystem holds, leaving it unchanged |
| Organizer.InProgressIsCaseSensitive | organizer.py:59-60 | "movie.part" is in progress, "movie.PART" is not |
| Organizer.FoldersAreSkipped | organizer.py:53-54 | a sub-folder of a well-formed root is not a regular file and is skipped |
| Organizer.ProcessTwiceSkips | organizer.py:53-85 | handling a moved file again is a skip, never a failure or a second move |
| Organizer.ClassifyGivesValidName | organizer.py:68-72 | the destination folder is always a single path component |
| Organizer.ResolvedNameIsValid | organizer.py:76-83 | the chosen name of a valid basename is again a valid basename |
| Organizer.ProcessPreservesValid | organizer.py:52-86 | handling a file keeps the root well-formed (no name both file and folder, all names single components) |
| Organizer.Sweep | organizer.py:88-95 | a finished sweep leaves exactly the root files that are not movable names of the listing; the set of folders only grows; an aborted sweep stops at a FileExists whose name is a root file and not a folder |
| Organizer.SweepPreservesValid | organizer.py:88-95 | a sweep keeps the root well-formed |
| Scenarios.IntoNewFolder | organizer.py:74-85 | a movable file whose category folder is missing moves there under its own name |
| Scenarios.CollisionInDocuments | organizer.py:52-86 | a second "a.txt" with "a.txt" and "a_1.txt" in Documents is stored as "a_2.txt" and the root is emptied |
| Scenarios.FileNamedLikeFolderFails | organizer.py:71-74 | a root file called "Others" with no Others folder makes makedirs raise FileExists |
| Scenarios.SweepScenario | organizer.py:88-95 | sweeping movie.mp4, .DS_Store, report.PDF, archive.tar.gz, unknown.xyz leaves only .DS_Store in the root and puts the others in Videos, PDFs, Archives and Others |

## Left out

- The watchdog observer and `on_modified` (organizer.py:42-50, 111-120): event delivery and threading are outside the sorting logic. The handler is modelled as called once per path.
- The two-second wait before handling (organizer.py:46): a timing heuristic with no logical content.
- Environment configuration, logging setup, log messages and the process entry point (organizer.py:9-23, 86, 90, 97-129): plumbing. The watched root is the `Root` value itself. Paths are reduced to basenames, since the handler only ever sees direct children of the root.
- The exception handler around the event (organizer.py:44-50): a `Failed` outcome stands for the exception. The startup sweep does not catch it, so `Sweep` stops with `Aborted`.
- Real `shutil.move` / `os.makedirs` behaviour (organizer.py:74, 85), such as cross-device copies, permissions, parent creation and races with other processes: the move is assumed to succeed once a free destination name is chosen.
- Contents of subdirectories inside a category folder: only their names are kept, since `os.path.exists` needs nothing more.
- The order of `os.listdir` (organizer.py:93): the listing is a parameter of `Sweep`.
- The in-progress suffixes are a fixed list (organizer.py:59), and a failed move is not retried (organizer.py:85); the model has no configuration or retry either.
- Strings.ToLower: lowers ASCII capitals only; full Unicode `str.lower()` is out of scope. Non-ASCII capitals whose lower-case form is ASCII are therefore classified differently: Python lowers U+212A KELVIN SIGN to `k`, so `c.M\u212aV` has extension `.mkv` and goes to Videos, while the model keeps U+212A and sends the file to Others.
- Organizer.Sweep: the contract says which root files remain and that the set of folders only grows; where each moved file lands is stated per file by `Organizer.ProcessFile`, not repeated for the whole sweep.
