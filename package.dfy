/** The packaged application as the tool sees it once extracted: its manifest, its
    executable, its icon and the archive's root folder. */
module Package {
  import opened Results
  import opened Text

  /** The `window` block of `package.json` (NW.js builds), with its `icon` key if present. */
  datatype Window = Window(icon: Option<string>)

  /** `package.json`, already parsed: the `name` key and the `window` block, when present. */
  datatype Manifest = Manifest(name: Option<string>, window: Option<Window>)

  /** What the extracted folder and the external programs give back, fixed for one run.
      Each `...Error` is the message of the exception raised, or `None` when the call succeeds. */
  datatype Environment = Environment(
    listing: seq<string>,          // os.listdir of the extracted folder, in its own order
    manifest: Manifest,            // package.json
    titleMatch: Option<string>,    // group 1 of the search for <title>(.*)</title> in index.html
    imageError: Option<string>,    // PIL opening the icon or saving it as ICO
    rceditError: Option<string>,   // rcedit exiting with a non-zero status
    isccError: Option<string>,     // the Inno Setup compiler exiting with a non-zero status
    outputExists: bool,            // whether the expected installer exists after compiling
    rezipError: Option<string>,    // recompressing the folder and replacing the archive
    moveError: Option<string>)     // moving the installer to its destination

  const HELPER_EXECUTABLE := "notification_helper.exe"
  const NO_EXECUTABLE := "Cannot find executable"
  const DEFAULT_ICON := "icon.png"
  const EMPTY_ARCHIVE := "list index out of range"
  const MARKER_FILE := "resources.pak"

  /** A file that `get_executable_name` accepts: ends in `.exe` (case-sensitively) and is not
      the notification helper. */
  predicate IsExecutableCandidate(f: string)
  {
    EndsWith(f, ".exe") && f != HELPER_EXECUTABLE
  }

  /** The first candidate of the listing, in listing order. */
  function FirstExecutable(listing: seq<string>): (r: Option<string>)
    ensures r.None? <==> forall i :: 0 <= i < |listing| ==> !IsExecutableCandidate(listing[i])
    ensures r.Some? ==>
              exists i :: 0 <= i < |listing| && listing[i] == r.value && IsExecutableCandidate(listing[i])
                          && forall j :: 0 <= j < i ==> !IsExecutableCandidate(listing[j])
  {
    if listing == [] then None
    else if IsExecutableCandidate(listing[0]) then Some(listing[0])
    else
      var r := FirstExecutable(listing[1..]);
      assert forall i :: 1 <= i < |listing| ==> listing[i] == listing[1..][i - 1];
      r
  }

  /** `get_executable_name`, as a function for the steps that call it. */
  function ExecutableName(listing: seq<string>): Result<string>
  {
    match FirstExecutable(listing)
    case Some(f) => Ok(f)
    case None => Err(NO_EXECUTABLE)
  }

  /** `get_executable_name`: scan the listing in order and return the first candidate. */
  method GetExecutableName(listing: seq<string>) returns (r: Result<string>)
    ensures r.Ok? ==> IsExecutableCandidate(r.value) && r.value in listing
    ensures r == ExecutableName(listing)
  {
    var i := 0;
    while i < |listing|
      invariant 0 <= i <= |listing|
      invariant forall j :: 0 <= j < i ==> !IsExecutableCandidate(listing[j])
    {
      var f := listing[i];
      if EndsWith(f, ".exe") && f != HELPER_EXECUTABLE {
        return Ok(f);
      }
      i := i + 1;
    }
    return Err(NO_EXECUTABLE);
  }

  /** The listing has no executable exactly when every `.exe` in it is the notification
      helper: the helper is never chosen, even though its name ends in `.exe`. */
  lemma HelperAloneIsNotExecutable(l: seq<string>)
    ensures ExecutableName(l) == Err(NO_EXECUTABLE) <==>
              forall i :: 0 <= i < |l| && EndsWith(l[i], ".exe") ==> l[i] == HELPER_EXECUTABLE
  {
    if forall i :: 0 <= i < |l| && EndsWith(l[i], ".exe") ==> l[i] == HELPER_EXECUTABLE {
      assert forall i :: 0 <= i < |l| ==> !IsExecutableCandidate(l[i]);
    } else {
      var i :| 0 <= i < |l| && EndsWith(l[i], ".exe") && l[i] != HELPER_EXECUTABLE;
      assert IsExecutableCandidate(l[i]);
    }
  }

  /** `name.split('/')[0]`: the part of the name before its first `/`. */
  function BeforeFirstSlash(name: string): (r: string)
    ensures r <= name && '/' !in r
    ensures |r| < |name| ==> name[|r|] == '/'
  {
    if name == [] || name[0] == '/' then []
    else [name[0]] + BeforeFirstSlash(name[1..])
  }

  /** `get_zip_inner_folder_name`: the root folder named by the archive's first entry. */
  function ZipInnerFolderName(entries: seq<string>): (r: Result<string>)
    ensures r.Ok? <==> entries != []
    ensures r.Ok? ==>
              && r.value <= entries[0] && '/' !in r.value
              && (r.value == entries[0] || entries[0][|r.value|] == '/')
    ensures r.Err? ==> r.message == EMPTY_ARCHIVE
  {
    if entries == [] then Err(EMPTY_ARCHIVE) else Ok(BeforeFirstSlash(entries[0]))
  }

  /** `verify_folder`: a folder is a packaged application when `resources.pak` is in it.
      `files` is the set of paths that exist. */
  function VerifyFolder(folder: string, files: set<string>): (r: bool)
    ensures r <==> exists f :: f in files && EndsWith(f, MARKER_FILE)
                                && f[..|f| - |MARKER_FILE|] == JoinPath(folder, [])
  {
    var marker := JoinPath(folder, MARKER_FILE);
    assert marker == JoinPath(folder, []) + MARKER_FILE;
    assert marker[..|marker| - |MARKER_FILE|] == JoinPath(folder, []);
    assert forall f :: EndsWith(f, MARKER_FILE) && f[..|f| - |MARKER_FILE|] == JoinPath(folder, []) ==>
                         f == f[..|f| - |MARKER_FILE|] + f[|f| - |MARKER_FILE|..] == marker;
    marker in files
  }

  /** The icon file named by the manifest: `icon.png`, unless there is a `window` block, whose
      `icon` is then taken (a missing `icon` raises `KeyError('icon')`, shown as `'icon'`). */
  function IconSourceName(m: Manifest): (r: Result<string>)
    ensures m.window.None? ==> r == Ok(DEFAULT_ICON)
    ensures m.window.Some? && m.window.value.icon.Some? ==> r == Ok(m.window.value.icon.value)
    ensures m.window.Some? && m.window.value.icon.None? ==> r == Err("'icon'")
  {
    match m.window
    case None => Ok(DEFAULT_ICON)
    case Some(w) =>
      match w.icon
      case Some(icon) => Ok(icon)
      case None => Err("'icon'")
  }

  /** The path `get_icon_as_ico` writes and returns: the source icon's path followed by `.ico`. */
  function GetIconAsIco(dir: string, env: Environment): (r: Result<string>)
    ensures r.Ok? <==> IconSourceName(env.manifest).Ok? && env.imageError.None?
    ensures r.Ok? ==>
              && EndsWith(r.value, ".ico")
              && r.value[..|r.value| - 4] == JoinPath(dir, IconSourceName(env.manifest).value)
  {
    match IconSourceName(env.manifest)
    case Err(e) => Err(e)
    case Ok(source) =>
      match env.imageError
      case Some(e) => Err(e)
      case None => Ok(JoinPath(dir, source) + ".ico")
  }
}
