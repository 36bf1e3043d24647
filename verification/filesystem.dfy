/** The part of the filesystem the organizer sees: the watched root, the
    regular files directly in it, and its subdirectories (the category
    folders), each with its own regular files and subdirectory names. */
module FileSystem {
  import opened Wrappers

  /** A folder below the root: the regular files directly inside it and the
      names of its subdirectories (whose contents are not modelled). */
  datatype Folder = Folder(files: set<string>, dirs: set<string>) {
    /** The names `os.path.exists` reports as present in this folder. */
    function Entries(): set<string> {
      files + dirs
    }
  }

  const EmptyFolder: Folder := Folder({}, {})

  /** The watched root: its regular files and its subdirectories by name. */
  datatype Root = Root(files: set<string>, folders: map<string, Folder>)

  /** A single path component: non-empty and free of the separator. */
  predicate ValidName(name: string) {
    |name| > 0 && '/' !in name
  }

  predicate ValidFolder(f: Folder) {
    && f.files !! f.dirs
    && (forall n :: n in f.files ==> ValidName(n))
    && (forall n :: n in f.dirs ==> ValidName(n))
  }

  /** A well-formed root: no name is both a file and a directory, and every
      name is a single path component. */
  predicate Valid(t: Root) {
    && t.files !! t.folders.Keys
    && (forall n :: n in t.files ==> ValidName(n))
    && (forall c :: c in t.folders ==> ValidName(c) && ValidFolder(t.folders[c]))
  }

  /** The one filesystem error the organizer can run into: creating a folder
      where a regular file of that name already sits. */
  datatype FsError = FileExists(name: string)

  /** `os.makedirs(root/name, exist_ok=True)`: nothing happens when the folder
      exists, a new empty folder appears otherwise, and the call fails when a
      regular file already has that name. */
  function MakeDirs(t: Root, name: string): (r: Result<Root, FsError>)
    ensures r.Failure? <==> name !in t.folders && name in t.files
    ensures r.Failure? ==> r.error == FileExists(name)
    ensures r.Success? ==> r.value.files == t.files
    ensures r.Success? ==> r.value.folders.Keys == t.folders.Keys + {name}
    ensures r.Success? ==> forall c :: c in t.folders ==> r.value.folders[c] == t.folders[c]
    ensures r.Success? && name !in t.folders ==> r.value.folders[name] == EmptyFolder
  {
    if name in t.folders then Success(t)
    else if name in t.files then Failure(FileExists(name))
    else Success(Root(t.files, t.folders[name := EmptyFolder]))
  }

  /** exist_ok: creating a folder a second time changes nothing. */
  lemma MakeDirsIdempotent(t: Root, name: string)
    requires MakeDirs(t, name).Success?
    ensures MakeDirs(MakeDirs(t, name).value, name) == MakeDirs(t, name)
  {
  }

  /** Creating a folder keeps the root well-formed. */
  lemma MakeDirsPreservesValid(t: Root, name: string)
    requires Valid(t) && ValidName(name)
    requires MakeDirs(t, name).Success?
    ensures Valid(MakeDirs(t, name).value)
  {
  }

  /** `shutil.move(root/name, root/folder/newName)` for a destination that does
      not exist yet: the file leaves the root and appears under its new name. */
  function Move(t: Root, name: string, folder: string, newName: string): (r: Root)
    requires folder in t.folders
    ensures r.files == t.files - {name}
    ensures r.folders.Keys == t.folders.Keys
    ensures r.folders[folder] == Folder(t.folders[folder].files + {newName}, t.folders[folder].dirs)
    ensures forall c :: c in t.folders && c != folder ==> r.folders[c] == t.folders[c]
  {
    var dest := t.folders[folder];
    Root(t.files - {name}, t.folders[folder := Folder(dest.files + {newName}, dest.dirs)])
  }
}
