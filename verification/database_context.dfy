/**
 * BibDatabaseContext: the mode, the path and the location of one library, and
 * the rule that decides where its linked files are looked up. The library's
 * MetaData is modelled as a record of plain stores (its own class is not part
 * of this model); the shared-database synchronizer and its listener are left
 * out.
 */
module DatabaseContext {
  import opened Wrappers
  import opened Paths

  /** BibDatabaseMode. */
  datatype Mode = BibTeX | BibLaTeX

  /** DatabaseLocation. */
  datatype Location = Local | Shared

  /** A charset, by its canonical name. */
  type Charset = string

  const UTF8: Charset := "UTF-8"

  /** The file preferences the lookup reads. */
  datatype FilePreferences = FilePreferences(
    userAndHost: string,
    storeFilesRelativeToBibFile: bool,
    mainFileDirectory: Option<Path>)

  /** What a MetaData object holds, as a value. */
  datatype MetaValues = MetaValues(
    mode: Option<Mode>,
    encoding: Option<Charset>,
    defaultFileDirectory: Option<string>,
    userFileDirectories: map<string, string>,
    latexFileDirectories: map<string, Path>)

  /** The library's metadata: each setter stores, each clearer removes. */
  class MetaData {
    var mode: Option<Mode>
    var encoding: Option<Charset>
    var defaultFileDirectory: Option<string>
    var userFileDirectories: map<string, string>
    var latexFileDirectories: map<string, Path>

    function Value(): MetaValues
      reads this
    {
      MetaValues(mode, encoding, defaultFileDirectory, userFileDirectories, latexFileDirectories)
    }

    constructor ()
      ensures Value() == MetaValues(None, None, None, map[], map[])
    {
      mode := None;
      encoding := None;
      defaultFileDirectory := None;
      userFileDirectories := map[];
      latexFileDirectories := map[];
    }

    /** getUserFileDirectory(userAndHost). */
    function UserFileDirectory(user: string): (r: Option<string>)
      reads this
      ensures r.Some? <==> user in userFileDirectories
      ensures r.Some? ==> r.value == userFileDirectories[user]
    {
      if user in userFileDirectories then Some(userFileDirectories[user]) else None
    }

    /** getLatexFileDirectory(userAndHost). */
    function LatexFileDirectory(user: string): (r: Option<Path>)
      reads this
      ensures r.Some? <==> user in latexFileDirectories
      ensures r.Some? ==> r.value == latexFileDirectories[user]
    {
      if user in latexFileDirectories then Some(latexFileDirectories[user]) else None
    }

    method SetMode(m: Mode)
      modifies this
      ensures Value() == old(Value()).(mode := Some(m))
    {
      mode := Some(m);
    }

    method SetEncoding(e: Charset)
      modifies this
      ensures Value() == old(Value()).(encoding := Some(e))
    {
      encoding := Some(e);
    }

    method SetDefaultFileDirectory(dir: string)
      modifies this
      ensures Value() == old(Value()).(defaultFileDirectory := Some(dir))
    {
      defaultFileDirectory := Some(dir);
    }

    method ClearDefaultFileDirectory()
      modifies this
      ensures Value() == old(Value()).(defaultFileDirectory := None)
    {
      defaultFileDirectory := None;
    }

    method SetUserFileDirectory(user: string, dir: string)
      modifies this
      ensures Value() == old(Value()).(userFileDirectories := old(userFileDirectories)[user := dir])
    {
      userFileDirectories := userFileDirectories[user := dir];
    }

    method ClearUserFileDirectory(user: string)
      modifies this
      ensures Value() == old(Value()).(userFileDirectories := old(userFileDirectories) - {user})
    {
      userFileDirectories := userFileDirectories - {user};
    }

    method SetLatexFileDirectory(user: string, dir: Path)
      modifies this
      ensures Value() == old(Value()).(latexFileDirectories := old(latexFileDirectories)[user := dir])
    {
      latexFileDirectories := latexFileDirectories[user := dir];
    }

    method ClearLatexFileDirectory(user: string)
      modifies this
      ensures Value() == old(Value()).(latexFileDirectories := old(latexFileDirectories) - {user})
    {
      latexFileDirectories := latexFileDirectories - {user};
    }
  }

  /** Why a file directory cannot be computed. */
  datatype ContextError =
    | NoParent   // getParent() of a one-name relative library path is null: the resolve throws

  /** The items of an optional value, as a list of zero or one. */
  function ToList<T>(o: Option<T>): (r: seq<T>)
    ensures |r| <= 1 && (o.Some? <==> |r| == 1)
    ensures o.Some? ==> r[0] == o.value
  {
    if o.Some? then [o.value] else []
  }

  class BibDatabaseContext {
    var metaData: MetaData
    var path: Option<Path>
    var location: Location

    /** BibDatabaseContext(database, metaData): no path, LOCAL. */
    constructor (metaData: MetaData)
      ensures this.metaData == metaData && path == None && location == Local
    {
      this.metaData := metaData;
      path := None;
      location := Local;
    }

    /**
     * BibDatabaseContext(database, metaData, path[, location]): the delegated
     * constructor sets LOCAL, and a SHARED argument is not acted upon, so the
     * context is LOCAL whatever `location` says.
     */
    constructor WithPath(metaData: MetaData, path: Option<Path>, location: Location)
      ensures this.metaData == metaData && this.path == path && this.location == Local
    {
      this.metaData := metaData;
      this.path := path;
      this.location := Local;
      new;
      if location == Local {
        ConvertToLocalDatabase();
      }
    }

    /** getMode: BIBTEX only when the metadata says so, BIBLATEX otherwise. */
    function Mode(): (m: Mode)
      reads this, metaData
      ensures m == BibTeX <==> metaData.mode == Some(BibTeX)
    {
      metaData.mode.GetOr(BibLaTeX)
    }

    /** isBiblatexMode. */
    function IsBiblatexMode(): (b: bool)
      reads this, metaData
      ensures b <==> Mode() == BibLaTeX
      ensures b <==> metaData.mode != Some(BibTeX)
    {
      Mode() == BibLaTeX
    }

    /** setMode: the mode is stored in the metadata. */
    method SetMode(m: Mode)
      modifies metaData
      ensures Mode() == m
      ensures metaData.Value() == old(metaData.Value()).(mode := Some(m))
    {
      metaData.SetMode(m);
    }

    method SetDatabasePath(file: Path)
      modifies this
      ensures path == Some(file) && metaData == old(metaData) && location == old(location)
    {
      path := Some(file);
    }

    /** getDatabasePath. */
    method GetDatabasePath() returns (r: Option<Path>)
      ensures r == path
    {
      r := path;
    }

    method ClearDatabasePath()
      modifies this
      ensures path == None && metaData == old(metaData) && location == old(location)
    {
      path := None;
    }

    method SetMetaData(m: MetaData)
      modifies this
      ensures metaData == m && path == old(path) && location == old(location)
    {
      metaData := m;
    }

    /** getLocation. */
    method GetLocation() returns (r: Location)
      ensures r == location
    {
      r := location;
    }

    /** convertToSharedDatabase: the location becomes SHARED. */
    method ConvertToSharedDatabase()
      modifies this
      ensures location == Shared && path == old(path) && metaData == old(metaData)
    {
      location := Shared;
    }

    /** convertToLocalDatabase: the location becomes LOCAL. */
    method ConvertToLocalDatabase()
      modifies this
      ensures location == Local && path == old(path) && metaData == old(metaData)
    {
      location := Local;
    }

    /**
     * getFileDirectoryPath: a relative directory is taken against the folder
     * of the library file and normalised; an absolute one, or any directory
     * of a library that has no path, is kept as written.
     */
    function FileDirectoryPath(directoryName: string): (r: Result<Path, ContextError>)
      reads this
      ensures Parse(directoryName).absolute || path.None? ==> r == Ok(Parse(directoryName))
      ensures !Parse(directoryName).absolute && path.Some? ==>
        match Parent(path.value)
        case None => r == Err(NoParent)
        case Some(folder) => r == Ok(Normalize(Path(folder.absolute, folder.names + Parse(directoryName).names)))
    {
      var directory := Parse(directoryName);
      if !directory.absolute && path.Some? then
        match Parent(path.value)
        case None => Err(NoParent)
        case Some(folder) => Ok(Normalize(Resolve(folder, directory)))
      else Ok(directory)
    }

    /** getUserFileDirectory: the user-specific directory, resolved. */
    function UserFileDirectory(prefs: FilePreferences): (r: Result<Option<Path>, ContextError>)
      reads this, metaData
      ensures metaData.UserFileDirectory(prefs.userAndHost).None? ==> r == Ok(None)
      ensures metaData.UserFileDirectory(prefs.userAndHost).Some? ==>
        r.Ok? == FileDirectoryPath(metaData.UserFileDirectory(prefs.userAndHost).value).Ok?
      ensures metaData.UserFileDirectory(prefs.userAndHost).Some? && r.Ok? ==>
        r.value == Some(FileDirectoryPath(metaData.UserFileDirectory(prefs.userAndHost).value).value)
    {
      match metaData.UserFileDirectory(prefs.userAndHost)
      case None => Ok(None)
      case Some(dir) =>
        match FileDirectoryPath(dir)
        case Err(e) => Err(e)
        case Ok(p) => Ok(Some(p))
    }

    /** The directory names the metadata sets up: the user-specific one first, then the general one. */
    function MetaDirectoryNames(prefs: FilePreferences): (r: seq<string>)
      reads this, metaData
      ensures |r| <= 2
    {
      ToList(metaData.UserFileDirectory(prefs.userAndHost)) + ToList(metaData.defaultFileDirectory)
    }

    /** The metadata directories, each resolved by getFileDirectoryPath; the first failure wins. */
    function ResolveAll(names: seq<string>): (r: Result<seq<Path>, ContextError>)
      reads this
      ensures r.Ok? ==> |r.value| == |names|
      ensures r.Ok? ==> forall k :: 0 <= k < |names| ==> FileDirectoryPath(names[k]) == Ok(r.value[k])
      ensures r.Err? <==> exists k :: 0 <= k < |names| && FileDirectoryPath(names[k]).Err?
    {
      if |names| == 0 then Ok([])
      else
        match FileDirectoryPath(names[0])
        case Err(e) => Err(e)
        case Ok(p) =>
          match ResolveAll(names[1..])
          case Err(e) =>
            Err(e)
          case Ok(rest) =>
            assert forall k :: 1 <= k < |names| ==> names[k] == names[1..][k - 1];
            Ok([p] + rest)
    }

    /** Appending one more directory name to the resolution. */
    lemma {:induction false} ResolveAllSnoc(names: seq<string>, name: string)
      ensures ResolveAll(names + [name]) ==
        match ResolveAll(names)
        case Err(e) => Err(e)
        case Ok(ps) =>
          match FileDirectoryPath(name)
          case Err(e) => Err(e)
          case Ok(p) => Ok(ps + [p])
      decreases |names|
    {
      if |names| == 0 {
        assert names + [name] == [name];
        assert [name][1..] == [];
        var last := FileDirectoryPath(name);
        if last.Ok? {
          assert [last.value] + [] == [] + [last.value];
        }
      } else {
        assert (names + [name])[0] == names[0];
        assert (names + [name])[1..] == names[1..] + [name];
        ResolveAllSnoc(names[1..], name);
        var first := FileDirectoryPath(names[0]);
        var rest := ResolveAll(names[1..]);
        var last := FileDirectoryPath(name);
        if first.Ok? && rest.Ok? && last.Ok? {
          assert [first.value] + (rest.value + [last.value]) == ([first.value] + rest.value) + [last.value];
        }
      }
    }

    /** Each directory made absolute against `cwd`. */
    function Absolutes(cwd: Path, dirs: seq<Path>): (r: seq<Path>)
      requires cwd.absolute
      ensures |r| == |dirs|
      ensures forall k :: 0 <= k < |dirs| ==> r[k] == ToAbsolute(cwd, dirs[k]) && r[k].absolute
    {
      seq(|dirs|, k requires 0 <= k < |dirs| => ToAbsolute(cwd, dirs[k]))
    }

    /** The folder of the library file, or the working directory when it has none. */
    function BibFolder(cwd: Path): (r: seq<Path>)
      reads this
      ensures |r| <= 1 && (|r| == 1 <==> path.Some?)
    {
      match path
      case None => []
      case Some(db) => [Parent(db).GetOr(cwd)]
    }

    /**
     * What follows the metadata directories: when there are none and files
     * are stored relative to the library, the library's folder; otherwise
     * the main file directory of the preferences.
     */
    function LastDirectory(prefs: FilePreferences, cwd: Path, noMeta: bool): (r: seq<Path>)
      reads this
      ensures |r| <= 1
    {
      if noMeta && prefs.storeFilesRelativeToBibFile then BibFolder(cwd) else ToList(prefs.mainFileDirectory)
    }

    /**
     * The directories getFileDirectories reports, by priority: the metadata
     * directories, then the last directory; everything is made absolute.
     */
    function FileDirectories(prefs: FilePreferences, cwd: Path): (r: Result<seq<Path>, ContextError>)
      requires cwd.absolute
      reads this, metaData
    {
      match ResolveAll(MetaDirectoryNames(prefs))
      case Err(e) => Err(e)
      case Ok(meta) => Ok(Absolutes(cwd, meta + LastDirectory(prefs, cwd, |meta| == 0)))
    }

    /** Resolution fails exactly when one of the metadata directories fails. */
    lemma FileDirectoriesFailure(prefs: FilePreferences, cwd: Path)
      requires cwd.absolute
      ensures FileDirectories(prefs, cwd).Err? <==>
        exists k :: 0 <= k < |MetaDirectoryNames(prefs)| && FileDirectoryPath(MetaDirectoryNames(prefs)[k]).Err?
    {
    }

    /** There are at most three directories, and all are absolute. */
    lemma FileDirectoriesShape(prefs: FilePreferences, cwd: Path)
      requires cwd.absolute
      ensures FileDirectories(prefs, cwd).Ok? ==>
        |FileDirectories(prefs, cwd).value| <= 3 &&
        forall k :: 0 <= k < |FileDirectories(prefs, cwd).value| ==> FileDirectories(prefs, cwd).value[k].absolute
    {
      var names := MetaDirectoryNames(prefs);
      var resolved := ResolveAll(names);
      if resolved.Ok? {
        var dirs := resolved.value + LastDirectory(prefs, cwd, |resolved.value| == 0);
        assert FileDirectories(prefs, cwd) == Ok(Absolutes(cwd, dirs));
      }
    }

    /**
     * The user-specific directory, when present, comes first, and the general
     * directory, when present, right after it.
     */
    lemma FileDirectoriesOrder(prefs: FilePreferences, cwd: Path)
      requires cwd.absolute && FileDirectories(prefs, cwd).Ok?
      ensures var dirs := FileDirectories(prefs, cwd).value;
        var user := metaData.UserFileDirectory(prefs.userAndHost);
        var general := metaData.defaultFileDirectory;
        && (user.Some? ==> FileDirectoryPath(user.value).Ok? && dirs[0] == ToAbsolute(cwd, FileDirectoryPath(user.value).value))
        && (general.Some? ==>
              var k := if user.Some? then 1 else 0;
              FileDirectoryPath(general.value).Ok? && dirs[k] == ToAbsolute(cwd, FileDirectoryPath(general.value).value))
    {
      var names := MetaDirectoryNames(prefs);
      var meta := ResolveAll(names).value;
      var dirs := meta + LastDirectory(prefs, cwd, |meta| == 0);
      assert FileDirectories(prefs, cwd) == Ok(Absolutes(cwd, dirs));
      var user := metaData.UserFileDirectory(prefs.userAndHost);
      if user.Some? {
        assert names[0] == user.value;
        assert dirs[0] == meta[0];
      }
      if metaData.defaultFileDirectory.Some? {
        var k := if user.Some? then 1 else 0;
        assert names[k] == metaData.defaultFileDirectory.value;
        assert dirs[k] == meta[k];
      }
    }

    /**
     * The library's folder is used exactly when neither metadata directory is
     * set, files are stored relative to the library and the library has a
     * path; it is then the only directory, and the working directory stands
     * in for a missing parent. With no path, the list stays empty.
     */
    lemma FileDirectoriesBibFolder(prefs: FilePreferences, cwd: Path)
      requires cwd.absolute
      requires metaData.UserFileDirectory(prefs.userAndHost).None? && metaData.defaultFileDirectory.None?
      ensures prefs.storeFilesRelativeToBibFile && path.Some? ==>
        FileDirectories(prefs, cwd) == Ok([ToAbsolute(cwd, Parent(path.value).GetOr(cwd))])
      ensures prefs.storeFilesRelativeToBibFile && path.None? ==> FileDirectories(prefs, cwd) == Ok([])
      ensures !prefs.storeFilesRelativeToBibFile ==>
        FileDirectories(prefs, cwd) == Ok(if prefs.mainFileDirectory.Some? then [ToAbsolute(cwd, prefs.mainFileDirectory.value)] else [])
    {
      assert MetaDirectoryNames(prefs) == [];
      var last := LastDirectory(prefs, cwd, true);
      assert [] + last == last;
      assert FileDirectories(prefs, cwd) == Ok(Absolutes(cwd, last));
      if |last| == 1 {
        assert Absolutes(cwd, last) == [ToAbsolute(cwd, last[0])];
      }
    }

    /**
     * Once a metadata directory is set, the main file directory of the
     * preferences is appended after it when present, and the library's
     * folder is never used.
     */
    lemma FileDirectoriesMainAfterMeta(prefs: FilePreferences, cwd: Path)
      requires cwd.absolute && FileDirectories(prefs, cwd).Ok?
      requires metaData.UserFileDirectory(prefs.userAndHost).Some? || metaData.defaultFileDirectory.Some?
      ensures var dirs := FileDirectories(prefs, cwd).value;
        var n := |MetaDirectoryNames(prefs)|;
        && |dirs| == n + |ToList(prefs.mainFileDirectory)|
        && (prefs.mainFileDirectory.Some? ==> dirs[n] == ToAbsolute(cwd, prefs.mainFileDirectory.value))
    {
      var names := MetaDirectoryNames(prefs);
      var meta := ResolveAll(names).value;
      assert |names| > 0;
      var dirs := meta + LastDirectory(prefs, cwd, |meta| == 0);
      assert FileDirectories(prefs, cwd) == Ok(Absolutes(cwd, dirs));
      if prefs.mainFileDirectory.Some? {
        assert dirs[|names|] == prefs.mainFileDirectory.value;
      }
    }

    /** getFileDirectories: the list is built by conditional appends. */
    method GetFileDirectories(prefs: FilePreferences, cwd: Path) returns (r: Result<seq<Path>, ContextError>)
      requires cwd.absolute
      ensures r == FileDirectories(prefs, cwd)
    {
      var fileDirs: seq<Path> := [];
      ghost var names: seq<string> := [];
      var user := metaData.UserFileDirectory(prefs.userAndHost);
      if user.Some? {
        var p := FileDirectoryPath(user.value);
        ResolveAllSnoc(names, user.value);
        names := names + [user.value];
        if p.Err? {
          return Err(p.error);
        }
        fileDirs := fileDirs + [p.value];
      }
      assert ResolveAll(names) == Ok(fileDirs);
      if metaData.defaultFileDirectory.Some? {
        var p := FileDirectoryPath(metaData.defaultFileDirectory.value);
        ResolveAllSnoc(names, metaData.defaultFileDirectory.value);
        names := names + [metaData.defaultFileDirectory.value];
        if p.Err? {
          return Err(p.error);
        }
        fileDirs := fileDirs + [p.value];
      }
      assert names == MetaDirectoryNames(prefs);
      ghost var meta := fileDirs;
      if |fileDirs| == 0 && prefs.storeFilesRelativeToBibFile {
        if path.Some? {
          var parentPath := Parent(path.value);
          if parentPath.None? {
            parentPath := Some(cwd);
          }
          fileDirs := fileDirs + [parentPath.value];
        }
      } else if prefs.mainFileDirectory.Some? {
        fileDirs := fileDirs + [prefs.mainFileDirectory.value];
      }
      assert fileDirs == meta + LastDirectory(prefs, cwd, |meta| == 0);
      r := Ok(Absolutes(cwd, fileDirs));
    }
  }
}
