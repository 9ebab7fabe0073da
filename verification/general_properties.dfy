/**
 * The "General" tab of the library properties: it loads the encoding, the
 * mode and the three file directories of a library into editable
 * properties, and stores the edited properties back into the library's
 * metadata. Directory dialogs are left out.
 */
module GeneralProperties {
  import opened Wrappers
  import opened Paths
  import opened DatabaseContext

  /** A character String.trim removes: every code point up to and including the space. */
  predicate IsBlank(c: char) {
    c <= ' '
  }

  /** Without blanks at either end. */
  predicate Trimmed(s: string) {
    s == "" || (!IsBlank(s[0]) && !IsBlank(s[|s| - 1]))
  }

  /**
   * String.trim: the blanks at both ends are removed, and a trimmed string
   * is kept.
   */
  function Trim(s: string): (r: string)
    ensures Trimmed(r) && |r| <= |s|
    ensures Trimmed(s) ==> r == s
  {
    if s == "" then s
    else if IsBlank(s[0]) then Trim(s[1..])
    else if IsBlank(s[|s| - 1]) then Trim(s[..|s| - 1])
    else s
  }

  /** Everything of `s` outside s[i..j] is blank. */
  predicate BlankOutside(s: string, i: nat, j: nat)
    requires i <= j <= |s|
  {
    (forall k :: 0 <= k < i ==> IsBlank(s[k])) && (forall k :: j <= k < |s| ==> IsBlank(s[k]))
  }

  /**
   * Trim keeps a middle slice of the string: it removes only characters at
   * either end, and all of them are blank. With Trimmed(Trim(s)) this is
   * String.trim exactly.
   */
  lemma {:induction false} TrimIsSlice(s: string)
    ensures exists i: nat, j: nat :: i <= j <= |s| && Trim(s) == s[i..j] && BlankOutside(s, i, j)
  {
    if s == "" {
      assert Trim(s) == s[0..0] && BlankOutside(s, 0, 0);
    } else if IsBlank(s[0]) {
      var t := s[1..];
      TrimIsSlice(t);
      var i: nat, j: nat :| i <= j <= |t| && Trim(t) == t[i..j] && BlankOutside(t, i, j);
      assert Trim(s) == s[i + 1..j + 1];
      assert BlankOutside(s, i + 1, j + 1) by {
        assert forall k :: 1 <= k < |s| ==> s[k] == t[k - 1];
      }
    } else if IsBlank(s[|s| - 1]) {
      var t := s[..|s| - 1];
      TrimIsSlice(t);
      var i: nat, j: nat :| i <= j <= |t| && Trim(t) == t[i..j] && BlankOutside(t, i, j);
      assert Trim(s) == s[i..j];
      assert BlankOutside(s, i, j) by {
        assert forall k :: 0 <= k < |t| ==> s[k] == t[k];
      }
    } else {
      assert Trim(s) == s[0..|s|] && BlankOutside(s, 0, |s|);
    }
  }

  /** Trim gives the empty string exactly for a string of blanks. */
  lemma {:induction false} TrimEmpty(s: string)
    ensures Trim(s) == "" <==> forall k :: 0 <= k < |s| ==> IsBlank(s[k])
  {
    if s != "" && IsBlank(s[0]) {
      TrimEmpty(s[1..]);
      assert forall k :: 1 <= k < |s| ==> s[k] == s[1..][k - 1];
    } else if s != "" && IsBlank(s[|s| - 1]) {
      TrimEmpty(s[..|s| - 1]);
      assert forall k :: 0 <= k < |s| - 1 ==> s[k] == s[..|s| - 1][k];
    }
  }

  /** Trimming twice is trimming once. */
  lemma TrimIdempotent(s: string)
    ensures Trim(Trim(s)) == Trim(s)
  {
  }

  /** The editable properties of the tab. */
  datatype Properties = Properties(
    encodingDisable: bool,
    encoding: Charset,
    mode: Mode,
    generalFileDirectory: string,
    userSpecificFileDirectory: string,
    latexFileDirectory: string)

  /**
   * setValues: what the tab shows for the metadata `m` of a library at
   * `location`, for the user `user`. UTF-8 and BibLaTeX stand in for an
   * unset encoding and mode, the empty string for an unset directory; the
   * encoding is locked for a shared library.
   */
  function Load(m: MetaValues, location: Location, user: string): (p: Properties)
    ensures p.encodingDisable <==> location == Shared
    ensures p.encoding == (if m.encoding.Some? then m.encoding.value else UTF8)
    ensures p.mode == BibTeX <==> m.mode == Some(BibTeX)
    ensures Trimmed(p.generalFileDirectory) && Trimmed(p.userSpecificFileDirectory)
    ensures p.generalFileDirectory != "" ==> m.defaultFileDirectory.Some?
    ensures p.userSpecificFileDirectory != "" ==> user in m.userFileDirectories
    ensures p.latexFileDirectory != "" <==> user in m.latexFileDirectories && ToString(m.latexFileDirectories[user]) != ""
  {
    Properties(
      location == Shared,
      m.encoding.GetOr(UTF8),
      m.mode.GetOr(BibLaTeX),
      Trim(m.defaultFileDirectory.GetOr("")),
      Trim(if user in m.userFileDirectories then m.userFileDirectories[user] else ""),
      if user in m.latexFileDirectories then ToString(m.latexFileDirectories[user]) else "")
  }

  /**
   * storeSettings: the metadata after storing the properties `p` for the
   * user `user`. Encoding and mode are always set; the general directory is
   * trimmed and an empty one cleared; the user-specific and LaTeX
   * directories are cleared only when exactly empty; the entries of other
   * users are not touched.
   */
  function Store(m: MetaValues, p: Properties, user: string): (r: MetaValues)
    ensures r.encoding == Some(p.encoding) && r.mode == Some(p.mode)
    ensures r.defaultFileDirectory.None? <==> Trim(p.generalFileDirectory) == ""
    ensures r.defaultFileDirectory.Some? ==> r.defaultFileDirectory.value == Trim(p.generalFileDirectory)
    ensures user in r.userFileDirectories <==> p.userSpecificFileDirectory != ""
    ensures user in r.userFileDirectories ==> r.userFileDirectories[user] == p.userSpecificFileDirectory
    ensures user in r.latexFileDirectories <==> p.latexFileDirectory != ""
    ensures user in r.latexFileDirectories ==> r.latexFileDirectories[user] == Parse(p.latexFileDirectory)
    ensures forall u :: u != user ==>
      (u in r.userFileDirectories <==> u in m.userFileDirectories) &&
      (u in r.userFileDirectories ==> r.userFileDirectories[u] == m.userFileDirectories[u])
    ensures forall u :: u != user ==>
      (u in r.latexFileDirectories <==> u in m.latexFileDirectories) &&
      (u in r.latexFileDirectories ==> r.latexFileDirectories[u] == m.latexFileDirectories[u])
  {
    var general := Trim(p.generalFileDirectory);
    MetaValues(
      Some(p.mode),
      Some(p.encoding),
      if general == "" then None else Some(general),
      if p.userSpecificFileDirectory == "" then m.userFileDirectories - {user}
      else m.userFileDirectories[user := p.userSpecificFileDirectory],
      if p.latexFileDirectory == "" then m.latexFileDirectories - {user}
      else m.latexFileDirectories[user := Parse(p.latexFileDirectory)])
  }

  /**
   * Metadata that loading and storing leaves as it is, for the user `user`:
   * encoding and mode are set, the directories are non-empty and trimmed,
   * and the LaTeX directory is a well-formed, non-empty path.
   */
  predicate Settled(m: MetaValues, user: string) {
    && m.encoding.Some? && m.mode.Some?
    && (m.defaultFileDirectory.Some? ==> m.defaultFileDirectory.value != "" && Trimmed(m.defaultFileDirectory.value))
    && (user in m.userFileDirectories ==> m.userFileDirectories[user] != "" && Trimmed(m.userFileDirectories[user]))
    && (user in m.latexFileDirectories ==>
          WellFormed(m.latexFileDirectories[user]) && ToString(m.latexFileDirectories[user]) != "")
  }

  /** Storing what was loaded changes nothing in settled metadata. */
  lemma LoadStoreSettled(m: MetaValues, location: Location, user: string)
    requires Settled(m, user)
    ensures Store(m, Load(m, location, user), user) == m
  {
    var r := Store(m, Load(m, location, user), user);
    if user in m.userFileDirectories {
      assert r.userFileDirectories == m.userFileDirectories;
    } else {
      assert r.userFileDirectories == m.userFileDirectories;
    }
    if user in m.latexFileDirectories {
      ParsePrint(m.latexFileDirectories[user]);
      assert r.latexFileDirectories == m.latexFileDirectories;
    } else {
      assert r.latexFileDirectories == m.latexFileDirectories;
    }
  }

  /**
   * Loading and storing settles any metadata whose LaTeX directory is
   * well-formed (as every path read by Path.of is), so doing it twice is
   * doing it once.
   */
  lemma LoadStoreSettles(m: MetaValues, location: Location, user: string)
    requires user in m.latexFileDirectories ==> WellFormed(m.latexFileDirectories[user])
    ensures Settled(Store(m, Load(m, location, user), user), user)
    ensures var once := Store(m, Load(m, location, user), user);
      Store(once, Load(once, location, user), user) == once
  {
    var once := Store(m, Load(m, location, user), user);
    if user in m.latexFileDirectories {
      ParsePrint(m.latexFileDirectories[user]);
    }
    LoadStoreSettled(once, location, user);
  }

  /**
   * Loading what was stored gives the properties back, up to trimming of
   * the two directories and the normal form Path.of gives the LaTeX one.
   */
  lemma StoreLoad(m: MetaValues, p: Properties, location: Location, user: string)
    ensures Load(Store(m, p, user), location, user) ==
      p.(encodingDisable := location == Shared,
         generalFileDirectory := Trim(p.generalFileDirectory),
         userSpecificFileDirectory := Trim(p.userSpecificFileDirectory),
         latexFileDirectory := ToString(Parse(p.latexFileDirectory)))
  {
    TrimIdempotent(p.generalFileDirectory);
    if p.latexFileDirectory == "" {
      assert Parse("") == Path(false, []);
    }
  }

  /** GeneralPropertiesViewModel. */
  class GeneralPropertiesView {
    var encodingDisable: bool
    var selectedEncoding: Charset
    var selectedMode: Mode
    var generalFileDirectory: string
    var userSpecificFileDirectory: string
    var latexFileDirectory: string

    const context: BibDatabaseContext
    /** The metadata object of the context when the tab was created. */
    const metaData: MetaData
    /** The user and host of the file preferences. */
    const userAndHost: string

    function Value(): Properties
      reads this
    {
      Properties(encodingDisable, selectedEncoding, selectedMode,
        generalFileDirectory, userSpecificFileDirectory, latexFileDirectory)
    }

    /**
     * The properties start at the first available charset, BibLaTeX and
     * empty directories; the metadata object is the context's current one.
     */
    constructor (context: BibDatabaseContext, userAndHost: string, firstCharset: Charset)
      ensures Value() == Properties(false, firstCharset, BibLaTeX, "", "", "")
      ensures this.context == context && this.metaData == context.metaData && this.userAndHost == userAndHost
    {
      this.context := context;
      this.metaData := context.metaData;
      this.userAndHost := userAndHost;
      encodingDisable := false;
      selectedEncoding := firstCharset;
      selectedMode := BibLaTeX;
      generalFileDirectory := "";
      userSpecificFileDirectory := "";
      latexFileDirectory := "";
    }

    /** setValues: the properties are loaded from the metadata object captured at creation. */
    method SetValues()
      modifies this
      ensures Value() == Load(metaData.Value(), context.location, userAndHost)
    {
      var isShared := context.location == Shared;
      encodingDisable := isShared;
      selectedEncoding := metaData.encoding.GetOr(UTF8);
      selectedMode := metaData.mode.GetOr(BibLaTeX);
      generalFileDirectory := Trim(metaData.defaultFileDirectory.GetOr(""));
      var user := metaData.UserFileDirectory(userAndHost);
      userSpecificFileDirectory := Trim(user.GetOr(""));
      var latex := metaData.LatexFileDirectory(userAndHost);
      latexFileDirectory := if latex.Some? then ToString(latex.value) else "";
    }

    /**
     * storeSettings: the properties are stored into the context's current
     * metadata object, which stays the context's metadata.
     */
    method StoreSettings()
      modifies context, context.metaData
      ensures context.metaData == old(context.metaData)
      ensures context.metaData.Value() == Store(old(context.metaData.Value()), Value(), userAndHost)
      ensures context.path == old(context.path) && context.location == old(context.location)
    {
      var newMetaData := context.metaData;
      newMetaData.SetEncoding(selectedEncoding);
      newMetaData.SetMode(selectedMode);
      var general := Trim(generalFileDirectory);
      if general == "" {
        newMetaData.ClearDefaultFileDirectory();
      } else {
        newMetaData.SetDefaultFileDirectory(general);
      }
      if userSpecificFileDirectory == "" {
        newMetaData.ClearUserFileDirectory(userAndHost);
      } else {
        newMetaData.SetUserFileDirectory(userAndHost, userSpecificFileDirectory);
      }
      if latexFileDirectory == "" {
        newMetaData.ClearLatexFileDirectory(userAndHost);
      } else {
        newMetaData.SetLatexFileDirectory(userAndHost, Parse(latexFileDirectory));
      }
      context.SetMetaData(newMetaData);
    }
  }
}
