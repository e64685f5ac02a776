/** The two background workers, each run as one sequential step: the extraction of the
    selected archive and the options run (`OptionsWorker._run`). */
module Workers {
  import opened Results
  import opened Text
  import opened Package
  import opened Installer

  const INVALID_ZIP := "Invalid zip selected"
  const FIXING_ICON := "Fixing icon"
  const RECOMPRESSING := "Recompressing (slow!)"
  const CREATING_INSTALLER := "Creating installer (very slow!!)"

  /** What happens, in order: the signals a worker emits, the effects its steps have on the
      disk, and the effects of the session's callbacks. No worker emits the last four
      (`ErrorShown` to `TempDirRemoved`): they are added by `Session`'s callbacks, which
      record all events in one history. */
  datatype Event =
    | Progress(text: string)                          // progress_update signal
    | IcoWritten(path: string)                        // the icon saved as ICO by get_icon_as_ico
    | IconPatched(executable: string, icon: string)   // rcedit set that ICO on the executable
    | Rezipped(folder: string, archive: string)       // archive replaced by the folder recompressed
    | ScriptWritten(scriptPath: string, values: ScriptValues)  // config.iss rendered from values and written
    | InstallerCompiled(scriptPath: string)           // iscc compiled that script
    | InstallerMoved(source: string, destination: string)
    | Succeeded                                       // success signal
    | Failed(message: string)                         // error signal, with str(e)
    // Session callbacks only:
    | ErrorShown(message: string)                     // error message box
    | SuccessShown                                    // 'Success' message box
    | Revealed(path: string)                          // explorer asked to show the installer
    | TempDirRemoved                                  // temporary directory deleted

  predicate IsSignal(e: Event)
  {
    e.Succeeded? || e.Failed?
  }

  /** A worker's emissions end with exactly one success or error signal. */
  predicate EndsWithOneSignal(events: seq<Event>)
  {
    && |events| > 0
    && IsSignal(events[|events| - 1])
    && forall i :: 0 <= i < |events| - 1 ==> !IsSignal(events[i])
  }

  /** The position of each disk effect in the options run. */
  function StepRank(e: Event): nat
  {
    match e
    case IconPatched(_, _) => 1
    case Rezipped(_, _) => 2
    case ScriptWritten(_, _) => 3
    case InstallerCompiled(_) => 4
    case InstallerMoved(_, _) => 5
    case _ => 0
  }

  /** Each ranked disk effect happens at most once, and icon patch, rezip, script, compile and
      move come in that order. The ICO, which both steps write, is not ranked. */
  predicate StepsInOrder(events: seq<Event>)
  {
    forall i, j :: 0 <= i < j < |events| && StepRank(events[i]) > 0 && StepRank(events[j]) > 0
                   ==> StepRank(events[i]) < StepRank(events[j])
  }

  /** `fix_icon(dir)`: the executable's path and the ICO written beside the source icon, once
      rcedit has set that icon. */
  function FixIcon(dir: string, env: Environment): (r: Result<(string, string)>)
    ensures r.Ok? <==> ExecutableName(env.listing).Ok? && GetIconAsIco(dir, env).Ok? && env.rceditError.None?
    ensures r.Ok? ==> r.value == (JoinPath(dir, ExecutableName(env.listing).value), GetIconAsIco(dir, env).value)
    ensures ExecutableName(env.listing).Err? ==> r == Err(NO_EXECUTABLE)
    ensures ExecutableName(env.listing).Ok? && GetIconAsIco(dir, env).Err? ==> r == Err(GetIconAsIco(dir, env).message)
    ensures ExecutableName(env.listing).Ok? && GetIconAsIco(dir, env).Ok? && env.rceditError.Some? ==>
              r == Err(env.rceditError.value)
  {
    match ExecutableName(env.listing)
    case Err(e) => Err(e)
    case Ok(executable) =>
      match GetIconAsIco(dir, env)
      case Err(e) => Err(e)
      case Ok(icon) =>
        if env.rceditError.Some? then Err(env.rceditError.value)
        else Ok((JoinPath(dir, executable), icon))
  }

  /** The extraction worker: extract the archive into `dest`, take the root folder named by
      the first entry and check that it is a packaged application. `archive` is the list of
      entries, or the error opening or extracting it; `files` is what is on disk afterwards. */
  function ExtractPackage(dest: string, archive: Result<seq<string>>, files: set<string>): (r: Result<string>)
    ensures r.Ok? <==> && archive.Ok? && archive.value != []
                       && VerifyFolder(JoinPath(dest, BeforeFirstSlash(archive.value[0])), files)
    ensures r.Ok? ==> r.value == JoinPath(dest, ZipInnerFolderName(archive.value).value)
    ensures archive.Err? ==> r == Err(archive.message)
    ensures archive.Ok? && archive.value == [] ==> r == Err(EMPTY_ARCHIVE)
    ensures archive.Ok? && archive.value != [] && !VerifyFolder(JoinPath(dest, BeforeFirstSlash(archive.value[0])), files)
            ==> r == Err(INVALID_ZIP)
  {
    match archive
    case Err(e) => Err(e)
    case Ok(entries) =>
      match ZipInnerFolderName(entries)
      case Err(e) => Err(e)
      case Ok(root) =>
        var contents := JoinPath(dest, root);
        if !VerifyFolder(contents, files) then Err(INVALID_ZIP) else Ok(contents)
  }

  /** The options worker, as `OptionsWorker.__init__` fills it in from the session. */
  datatype OptionsWorker = OptionsWorker(
    temporaryDirectory: string,
    extractedContents: string,
    filename: string,
    shouldFixIcon: bool,
    shouldCreateInstaller: bool,
    installerDestination: Option<string>)   // set only when an installer is wanted
  {
    ghost predicate Valid()
    {
      shouldCreateInstaller ==> installerDestination.Some?
    }

    /** Every selected step succeeds. */
    predicate StepsSucceed(env: Environment)
    {
      && (shouldFixIcon ==> FixIcon(extractedContents, env).Ok? && env.rezipError.None?)
      && (shouldCreateInstaller ==> CreateInstaller(extractedContents, env).Ok? && env.moveError.None?)
    }
  }

  /** The ICO `fix_icon` saves before rcedit runs: written once the executable is found and
      the icon converts, and left on disk when rcedit then fails. */
  function FixIconIco(dir: string, env: Environment): (r: Option<string>)
    ensures r.Some? <==> ExecutableName(env.listing).Ok? && GetIconAsIco(dir, env).Ok?
    ensures FixIcon(dir, env).Ok? ==> r == Some(FixIcon(dir, env).value.1)
  {
    if ExecutableName(env.listing).Ok? && GetIconAsIco(dir, env).Ok? then Some(GetIconAsIco(dir, env).value)
    else None
  }

  /** What the first part of `_run` emits and does, given the ICO written, the outcome of
      `fix_icon` and of `rezip`: report progress, write the ICO, patch the icon, rezip; an
      error signal ends it when one of them raises. */
  function FixIconEvents(ico: Option<string>, fixed: Result<(string, string)>, rezipError: Option<string>,
                         folder: string, archive: string): seq<Event>
  {
    var start := if ico.Some? then [Progress(FIXING_ICON), IcoWritten(ico.value)] else [Progress(FIXING_ICON)];
    if fixed.Err? then start + [Failed(fixed.message)]
    else
      var patched := IconPatched(fixed.value.0, fixed.value.1);
      if rezipError.Some? then start + [patched, Progress(RECOMPRESSING), Failed(rezipError.value)]
      else start + [patched, Progress(RECOMPRESSING), Rezipped(folder, archive)]
  }

  function FixIconTrace(w: OptionsWorker, env: Environment): seq<Event>
  {
    FixIconEvents(FixIconIco(w.extractedContents, env), FixIcon(w.extractedContents, env), env.rezipError,
                  w.temporaryDirectory, w.filename)
  }

  /** The files `create_installer` writes, in the order it writes them. */
  function InstallerFileEvents(f: InstallerFiles): seq<Event>
  {
    (if f.icon.Some? then [IcoWritten(f.icon.value)] else [])
    + (if f.script.None? then []
       else if f.compiled then [ScriptWritten(f.script.value.0, f.script.value.1), InstallerCompiled(f.script.value.0)]
       else [ScriptWritten(f.script.value.0, f.script.value.1)])
  }

  /** How the second part ends: the error of `create_installer` or of the move, or the move. */
  function InstallerOutcome(built: Result<Built>, moveError: Option<string>, destination: string): Event
  {
    if built.Err? then Failed(built.message)
    else if moveError.Some? then Failed(moveError.value)
    else InstallerMoved(built.value.output, destination)
  }

  /** What the second part emits and does, given the files `create_installer` wrote, its
      outcome and the outcome of the move: report progress, write the ICO and the script,
      compile, move the installer to the destination chosen before the run. */
  function InstallerEvents(files: InstallerFiles, built: Result<Built>, moveError: Option<string>,
                           destination: string): seq<Event>
  {
    [Progress(CREATING_INSTALLER)] + InstallerFileEvents(files) + [InstallerOutcome(built, moveError, destination)]
  }

  function InstallerTrace(w: OptionsWorker, env: Environment): seq<Event>
    requires w.Valid() && w.shouldCreateInstaller
  {
    InstallerEvents(CreateInstallerFiles(w.extractedContents, env), CreateInstaller(w.extractedContents, env),
                    env.moveError, w.installerDestination.value)
  }

  /** Whether a part of the run stopped on an exception. */
  predicate Raised(part: seq<Event>)
  {
    part != [] && IsSignal(part[|part| - 1])
  }

  /** The two parts of a run joined: the installer part only when the first part did not
      raise, and the success signal only when neither raised. */
  function RunEvents(fix: seq<Event>, installer: seq<Event>): seq<Event>
  {
    if Raised(fix) then fix
    else if Raised(installer) then fix + installer
    else fix + installer + [Succeeded]
  }

  /** Everything one options run emits and does, in order. */
  function RunTrace(w: OptionsWorker, env: Environment): seq<Event>
    requires w.Valid()
  {
    RunEvents(if w.shouldFixIcon then FixIconTrace(w, env) else [],
              if w.shouldCreateInstaller then InstallerTrace(w, env) else [])
  }

  /** The first part of `_run`: report progress, fix the icon (writing the ICO, then
      patching it in), then `rezip`. `ok` is false when one of them raised. */
  method FixIconAndRezip(w: OptionsWorker, env: Environment) returns (events: seq<Event>, ok: bool)
    ensures events == FixIconTrace(w, env)
    ensures ok <==> !Raised(events)
  {
    events := [Progress(FIXING_ICON)];
    var ico := FixIconIco(w.extractedContents, env);
    if ico.Some? {
      events := events + [IcoWritten(ico.value)];
    }
    var fixed := FixIcon(w.extractedContents, env);
    if fixed.Err? {
      return events + [Failed(fixed.message)], false;
    }
    events := events + [IconPatched(fixed.value.0, fixed.value.1), Progress(RECOMPRESSING)];
    if env.rezipError.Some? {
      return events + [Failed(env.rezipError.value)], false;
    }
    events := events + [Rezipped(w.temporaryDirectory, w.filename)];
    ok := true;
  }

  /** The second part of `_run`: report progress, `create_installer` (writing the ICO and the
      script, then compiling), then move the installer to the destination chosen before the
      run. */
  method CreateAndMoveInstaller(w: OptionsWorker, env: Environment) returns (events: seq<Event>, ok: bool)
    requires w.Valid() && w.shouldCreateInstaller
    ensures events == InstallerTrace(w, env)
    ensures ok <==> !Raised(events)
  {
    events := [Progress(CREATING_INSTALLER)];
    var files := CreateInstallerFiles(w.extractedContents, env);
    if files.icon.Some? {
      events := events + [IcoWritten(files.icon.value)];
    }
    if files.script.Some? {
      events := events + [ScriptWritten(files.script.value.0, files.script.value.1)];
      if files.compiled {
        events := events + [InstallerCompiled(files.script.value.0)];
      }
    }
    var built := CreateInstaller(w.extractedContents, env);
    if built.Err? {
      return events + [Failed(built.message)], false;
    }
    if env.moveError.Some? {
      return events + [Failed(env.moveError.value)], false;
    }
    events := events + [InstallerMoved(built.value.output, w.installerDestination.value)];
    ok := true;
  }

  /** `OptionsWorker.run`: the steps of `_run` in order, an exception ending the run with an
      error signal in place of the success signal. Returns everything emitted or done. */
  method Run(w: OptionsWorker, env: Environment) returns (events: seq<Event>)
    requires w.Valid()
    ensures events == RunTrace(w, env)
    ensures EndsWithOneSignal(events)
  {
    events := [];
    if w.shouldFixIcon {
      var ok;
      events, ok := FixIconAndRezip(w, env);
      if !ok {
        RunEndsWithOneSignal(w, env);
        return;
      }
    }
    if w.shouldCreateInstaller {
      var more, ok := CreateAndMoveInstaller(w, env);
      events := events + more;
      if !ok {
        RunEndsWithOneSignal(w, env);
        return;
      }
    }
    events := events + [Succeeded];
    RunEndsWithOneSignal(w, env);
  }

  // Properties of a run.

  /** One part of a run: its disk effects have ranks in `lo..hi` and come in order, it emits
      no success signal, and an error signal can only come last. */
  predicate PartShape(t: seq<Event>, lo: nat, hi: nat)
  {
    && StepsInOrder(t)
    && (forall i :: 0 <= i < |t| ==> StepRank(t[i]) == 0 || lo <= StepRank(t[i]) <= hi)
    && (forall i :: 0 <= i < |t| ==> !t[i].Succeeded?)
    && (forall i :: 0 <= i < |t| - 1 ==> !IsSignal(t[i]))
  }

  /** Nothing in `t` is a signal. */
  predicate NoSignal(t: seq<Event>)
  {
    forall i :: 0 <= i < |t| ==> !IsSignal(t[i])
  }

  /** What a step needs done before it: the icon is patched with an ICO written before, the
      archive is rezipped once the icon was patched, a script is compiled once it was
      written, and the installer is moved once it was compiled. */
  predicate ReadyFor(before: seq<Event>, e: Event)
  {
    && (e.IconPatched? ==> IcoWritten(e.icon) in before)
    && (e.Rezipped? ==> exists j :: 0 <= j < |before| && before[j].IconPatched?)
    && (e.InstallerCompiled? ==> exists j :: 0 <= j < |before| && before[j].ScriptWritten? && before[j].scriptPath == e.scriptPath)
    && (e.InstallerMoved? ==> exists j :: 0 <= j < |before| && before[j].InstallerCompiled?)
  }

  /** Every step of `t` finds what it needs done earlier in `t`. */
  predicate PrerequisitesFirst(t: seq<Event>)
  {
    forall i :: 0 <= i < |t| ==> ReadyFor(t[..i], t[i])
  }

  lemma FixIconEventsShape(ico: Option<string>, fixed: Result<(string, string)>, rezipError: Option<string>,
                           folder: string, archive: string)
    ensures PartShape(FixIconEvents(ico, fixed, rezipError, folder, archive), 1, 2)
  {
    var start := if ico.Some? then [Progress(FIXING_ICON), IcoWritten(ico.value)] else [Progress(FIXING_ICON)];
    UnrankedShape(start, 1, 0);
    if fixed.Err? {
      ShapeAppend(start, [Failed(fixed.message)], 1, 0, 2);
    } else {
      var last := if rezipError.Some? then Failed(rezipError.value) else Rezipped(folder, archive);
      PatchAndRezipShape(IconPatched(fixed.value.0, fixed.value.1), last);
      ShapeAppend(start, [IconPatched(fixed.value.0, fixed.value.1), Progress(RECOMPRESSING), last], 1, 0, 2);
    }
  }

  /** Progress reports and written files alone: no ranked effect and no signal. */
  lemma UnrankedShape(t: seq<Event>, lo: nat, hi: nat)
    requires forall i :: 0 <= i < |t| ==> StepRank(t[i]) == 0 && !IsSignal(t[i])
    ensures PartShape(t, lo, hi) && NoSignal(t)
  {
  }

  /** The end of a first part in which the icon was patched. */
  lemma PatchAndRezipShape(patched: Event, last: Event)
    requires patched.IconPatched? && (last.Failed? || last.Rezipped?)
    ensures PartShape([patched, Progress(RECOMPRESSING), last], 1, 2)
  {
    var t := [patched, Progress(RECOMPRESSING), last];
    assert StepRank(t[0]) == 1 && StepRank(t[1]) == 0;
  }

  /** The first part raises exactly when `fix_icon` or `rezip` does, and otherwise ends with
      the rezip. */
  lemma FixIconEventsOutcome(ico: Option<string>, fixed: Result<(string, string)>, rezipError: Option<string>,
                             folder: string, archive: string)
    ensures var t := FixIconEvents(ico, fixed, rezipError, folder, archive);
      && (Raised(t) <==> fixed.Err? || rezipError.Some?)
      && (!Raised(t) ==> t[|t| - 1] == Rezipped(folder, archive))
  {
  }

  /** The icon is patched with the ICO written just before, and the archive rezipped after. */
  lemma FixIconEventsReady(ico: Option<string>, fixed: Result<(string, string)>, rezipError: Option<string>,
                           folder: string, archive: string)
    requires fixed.Ok? ==> ico == Some(fixed.value.1)
    ensures PrerequisitesFirst(FixIconEvents(ico, fixed, rezipError, folder, archive))
  {
    var start := if ico.Some? then [Progress(FIXING_ICON), IcoWritten(ico.value)] else [Progress(FIXING_ICON)];
    assert PrerequisitesFirst(start) by {
      forall i | 0 <= i < |start| ensures ReadyFor(start[..i], start[i]) {
        assert start[i].Progress? || start[i].IcoWritten?;
      }
    }
    if fixed.Err? {
      PrerequisitesExtend(start, Failed(fixed.message));
    } else {
      var patched := IconPatched(fixed.value.0, fixed.value.1);
      assert start[1] == IcoWritten(fixed.value.1);
      PrerequisitesExtend(start, patched);
      var patchedTrace := start + [patched];
      PrerequisitesExtend(patchedTrace, Progress(RECOMPRESSING));
      var beforeRezip := patchedTrace + [Progress(RECOMPRESSING)];
      var last := if rezipError.Some? then Failed(rezipError.value) else Rezipped(folder, archive);
      assert beforeRezip[|start|] == patched;
      PrerequisitesExtend(beforeRezip, last);
      assert FixIconEvents(ico, fixed, rezipError, folder, archive) == beforeRezip + [last];
    }
  }

  /** The files `create_installer` writes come in order, the compilation last. */
  lemma InstallerFileEventsShape(f: InstallerFiles)
    ensures var w := InstallerFileEvents(f);
      && PartShape(w, 3, 4) && NoSignal(w)
      && (f.script.Some? && f.compiled ==> w != [] && w[|w| - 1] == InstallerCompiled(f.script.value.0))
  {
    var ico := if f.icon.Some? then [IcoWritten(f.icon.value)] else [];
    var script := if f.script.None? then []
                  else if f.compiled then [ScriptWritten(f.script.value.0, f.script.value.1), InstallerCompiled(f.script.value.0)]
                  else [ScriptWritten(f.script.value.0, f.script.value.1)];
    WrittenFilesShape(ico, script);
  }

  /** An optional ICO, then an optional script and its compilation. */
  lemma WrittenFilesShape(ico: seq<Event>, script: seq<Event>)
    requires |ico| <= 1 && forall i :: 0 <= i < |ico| ==> ico[i].IcoWritten?
    requires |script| <= 2 && (|script| > 0 ==> script[0].ScriptWritten?)
    requires |script| == 2 ==> script[1].InstallerCompiled?
    ensures PartShape(ico + script, 3, 4) && NoSignal(ico + script)
  {
    var t := ico + script;
    forall i | 0 <= i < |t|
      ensures t[i].IcoWritten? || t[i].ScriptWritten? || t[i].InstallerCompiled?
      ensures t[i].InstallerCompiled? ==> i == |t| - 1
      ensures t[i].ScriptWritten? ==> i == |ico|
    {
      if i < |ico| { assert t[i] == ico[i]; } else { assert t[i] == script[i - |ico|]; }
    }
  }

  /** `create_installer` compiles the script it wrote. */
  lemma InstallerFileEventsReady(f: InstallerFiles)
    ensures PrerequisitesFirst(InstallerFileEvents(f))
  {
    var ico := if f.icon.Some? then [IcoWritten(f.icon.value)] else [];
    assert PrerequisitesFirst(ico) by {
      forall i | 0 <= i < |ico| ensures ReadyFor(ico[..i], ico[i]) {
        assert ico[i].IcoWritten?;
      }
    }
    if f.script.Some? {
      var script := ScriptWritten(f.script.value.0, f.script.value.1);
      PrerequisitesExtend(ico, script);
      if f.compiled {
        assert (ico + [script])[|ico|] == script;
        PrerequisitesExtend(ico + [script], InstallerCompiled(f.script.value.0));
        assert InstallerFileEvents(f) == ico + [script] + [InstallerCompiled(f.script.value.0)];
      }
    } else {
      assert InstallerFileEvents(f) == ico;
    }
  }

  /** The second part up to its last event: progress, then the files written. */
  lemma InstallerStartShape(files: InstallerFiles)
    ensures var written := [Progress(CREATING_INSTALLER)] + InstallerFileEvents(files);
      PartShape(written, 3, 4) && NoSignal(written)
  {
    InstallerFileEventsShape(files);
    ShapeAppend([Progress(CREATING_INSTALLER)], InstallerFileEvents(files), 3, 2, 4);
  }

  lemma InstallerEventsShape(files: InstallerFiles, built: Result<Built>, moveError: Option<string>, destination: string)
    ensures PartShape(InstallerEvents(files, built, moveError, destination), 3, 5)
  {
    var written := [Progress(CREATING_INSTALLER)] + InstallerFileEvents(files);
    InstallerStartShape(files);
    if built.Err? {
      ShapeAppend(written, [Failed(built.message)], 3, 4, 5);
    } else if moveError.Some? {
      ShapeAppend(written, [Failed(moveError.value)], 3, 4, 5);
    } else {
      ShapeAppend(written, [InstallerMoved(built.value.output, destination)], 3, 4, 5);
    }
  }

  /** The second part raises exactly when `create_installer` or the move does, and otherwise
      ends with the move. */
  lemma InstallerEventsOutcome(files: InstallerFiles, built: Result<Built>, moveError: Option<string>, destination: string)
    ensures var t := InstallerEvents(files, built, moveError, destination);
      && (Raised(t) <==> built.Err? || moveError.Some?)
      && (!Raised(t) ==> t[|t| - 1] == InstallerMoved(built.value.output, destination))
  {
  }

  /** The installer is moved only after it was compiled from the script written before. */
  lemma InstallerEventsReady(files: InstallerFiles, built: Result<Built>, moveError: Option<string>, destination: string)
    requires built.Ok? ==> files.script.Some? && files.compiled
    ensures PrerequisitesFirst(InstallerEvents(files, built, moveError, destination))
  {
    var start := [Progress(CREATING_INSTALLER)];
    var files' := InstallerFileEvents(files);
    var written := start + files';
    InstallerFileEventsReady(files);
    assert PrerequisitesFirst(start) by {
      assert ReadyFor(start[..0], start[0]);
    }
    PrerequisitesAppend(start, files');
    var last := InstallerOutcome(built, moveError, destination);
    if last.InstallerMoved? {
      InstallerFileEventsShape(files);
      assert written[|written| - 1] == files'[|files'| - 1];
    }
    PrerequisitesExtend(written, last);
    assert InstallerEvents(files, built, moveError, destination) == written + [last];
  }

  /** A part whose ranked effects all come before those of the next part, and which emits no
      signal, can be joined to it. */
  lemma ShapeAppend(a: seq<Event>, b: seq<Event>, lo: nat, mid: nat, hi: nat)
    requires lo <= mid + 1 && mid <= hi
    requires PartShape(a, lo, mid) && NoSignal(a) && PartShape(b, mid + 1, hi)
    ensures PartShape(a + b, lo, hi)
    ensures NoSignal(b) ==> NoSignal(a + b)
  {
    var t := a + b;
    forall i, j | 0 <= i < j < |t| && StepRank(t[i]) > 0 && StepRank(t[j]) > 0
      ensures StepRank(t[i]) < StepRank(t[j])
    {
      if j < |a| {
        assert t[i] == a[i] && t[j] == a[j];
      } else if i >= |a| {
        assert t[i] == b[i - |a|] && t[j] == b[j - |a|];
      } else {
        assert t[i] == a[i] && t[j] == b[j - |a|];
      }
    }
    forall i | 0 <= i < |t|
      ensures StepRank(t[i]) == 0 || lo <= StepRank(t[i]) <= hi
      ensures !t[i].Succeeded?
      ensures i < |t| - 1 || NoSignal(b) ==> !IsSignal(t[i])
    {
      if i >= |a| { assert t[i] == b[i - |a|]; } else { assert t[i] == a[i]; }
    }
  }

  /** A step that finds what it needs in a trace can follow it. */
  lemma PrerequisitesExtend(a: seq<Event>, e: Event)
    requires PrerequisitesFirst(a) && ReadyFor(a, e)
    ensures PrerequisitesFirst(a + [e])
  {
    var t := a + [e];
    forall i | 0 <= i < |t| ensures ReadyFor(t[..i], t[i]) {
      if i < |a| {
        assert t[..i] == a[..i] && t[i] == a[i];
      } else {
        assert t[..i] == a;
      }
    }
  }

  /** Joining a first part and an installer part gives a run that ends with exactly one
      signal, keeps the steps in order, and succeeds exactly when neither part raised. */
  lemma RunEventsFacts(fix: seq<Event>, installer: seq<Event>)
    requires PartShape(fix, 1, 2) && PartShape(installer, 3, 5)
    ensures var t := RunEvents(fix, installer);
      && EndsWithOneSignal(t)
      && StepsInOrder(t)
      && (t[|t| - 1] == Succeeded <==> !Raised(fix) && !Raised(installer))
  {
    if Raised(fix) {
    } else if Raised(installer) {
      TraceFacts(fix, installer);
    } else {
      var back := installer + [Succeeded];
      SucceededAfter(installer);
      TraceFacts(fix, back);
      assert fix + installer + [Succeeded] == fix + back;
    }
  }

  /** An installer part that did not raise, followed by the success signal. */
  lemma SucceededAfter(installer: seq<Event>)
    requires PartShape(installer, 3, 5) && !Raised(installer)
    ensures var back := installer + [Succeeded];
      && EndsWithOneSignal(back) && StepsInOrder(back)
      && forall i :: 0 <= i < |back| ==> StepRank(back[i]) == 0 || StepRank(back[i]) >= 3
  {
    var back := installer + [Succeeded];
    assert back[|back| - 1] == Succeeded;
    assert forall i :: 0 <= i < |back| - 1 ==> back[i] == installer[i];
  }

  /** A run ends with exactly one signal, success or error, and emits nothing after it. */
  lemma RunEndsWithOneSignal(w: OptionsWorker, env: Environment)
    requires w.Valid()
    ensures EndsWithOneSignal(RunTrace(w, env))
  {
    var fix := if w.shouldFixIcon then FixIconTrace(w, env) else [];
    var installer := if w.shouldCreateInstaller then InstallerTrace(w, env) else [];
    TraceParts(w, env);
    RunEventsFacts(fix, installer);
  }

  /** Icon patch, rezip, script, compile and installer move each happen at most once, in
      that order. */
  lemma RunStepsInOrder(w: OptionsWorker, env: Environment)
    requires w.Valid()
    ensures StepsInOrder(RunTrace(w, env))
  {
    var fix := if w.shouldFixIcon then FixIconTrace(w, env) else [];
    var installer := if w.shouldCreateInstaller then InstallerTrace(w, env) else [];
    TraceParts(w, env);
    RunEventsFacts(fix, installer);
  }

  /** The icon is patched and the archive rezipped only when fixing the icon was selected;
      an installer script is written, compiled and moved only when creating one was selected. */
  lemma RunStepsOnlyIfSelected(w: OptionsWorker, env: Environment)
    requires w.Valid()
    ensures var t := RunTrace(w, env);
      && (forall i :: 0 <= i < |t| && (t[i].IconPatched? || t[i].Rezipped?) ==> w.shouldFixIcon)
      && (forall i :: 0 <= i < |t| && (t[i].ScriptWritten? || t[i].InstallerCompiled? || t[i].InstallerMoved?) ==>
            w.shouldCreateInstaller)
  {
    var fix := if w.shouldFixIcon then FixIconTrace(w, env) else [];
    var installer := if w.shouldCreateInstaller then InstallerTrace(w, env) else [];
    TraceParts(w, env);
    RankedOnlyFromParts(fix, installer);
  }

  /** Every disk effect of a run comes from one of its two parts. */
  lemma RankedOnlyFromParts(fix: seq<Event>, installer: seq<Event>)
    requires PartShape(fix, 1, 2) && PartShape(installer, 3, 5)
    ensures var t := RunEvents(fix, installer);
      && (forall i :: 0 <= i < |t| && (t[i].IconPatched? || t[i].Rezipped?) ==> fix != [])
      && (forall i :: 0 <= i < |t| && (t[i].ScriptWritten? || t[i].InstallerCompiled? || t[i].InstallerMoved?) ==>
            installer != [])
  {
    var t := RunEvents(fix, installer);
    if fix == [] {
      forall i | 0 <= i < |t| ensures !t[i].IconPatched? && !t[i].Rezipped? {
        if i < |installer| { assert t[i] == installer[i]; }
      }
    }
    if installer == [] {
      forall i | 0 <= i < |t| ensures !t[i].ScriptWritten? && !t[i].InstallerCompiled? && !t[i].InstallerMoved? {
        if i < |fix| { assert t[i] == fix[i]; }
      }
    }
  }

  /** A run ends in success exactly when every selected step succeeds. */
  lemma RunSucceedsIff(w: OptionsWorker, env: Environment)
    requires w.Valid()
    ensures var t := RunTrace(w, env);
      && |t| > 0
      && (t[|t| - 1] == Succeeded <==> w.StepsSucceed(env))
  {
    var fix := if w.shouldFixIcon then FixIconTrace(w, env) else [];
    var installer := if w.shouldCreateInstaller then InstallerTrace(w, env) else [];
    TraceParts(w, env);
    RunEventsFacts(fix, installer);
  }

  /** A successful run has rezipped the archive (when the icon was to be fixed) and moved the
      built installer to its destination (when one was to be created). */
  lemma RunSuccessCompletesSteps(w: OptionsWorker, env: Environment)
    requires w.Valid()
    ensures var t := RunTrace(w, env);
      t != [] && t[|t| - 1] == Succeeded ==>
        && (w.shouldFixIcon ==> Rezipped(w.temporaryDirectory, w.filename) in t)
        && (w.shouldCreateInstaller ==>
              InstallerMoved(CreateInstaller(w.extractedContents, env).value.output, w.installerDestination.value) in t)
  {
    RunSucceedsIff(w, env);
    if w.StepsSucceed(env) {
      TraceParts(w, env);
      var fix := if w.shouldFixIcon then FixIconTrace(w, env) else [];
      var installer := if w.shouldCreateInstaller then InstallerTrace(w, env) else [];
      if w.shouldFixIcon {
        RunEventsContain(fix, installer, fix[|fix| - 1]);
      }
      if w.shouldCreateInstaller {
        assert installer[|installer| - 1] == InstallerMoved(CreateInstaller(w.extractedContents, env).value.output,
                                                            w.installerDestination.value);
        RunEventsContain(fix, installer, installer[|installer| - 1]);
      }
    }
  }

  /** A run in which neither part raised holds everything both parts did. */
  lemma RunEventsContain(fix: seq<Event>, installer: seq<Event>, e: Event)
    requires !Raised(fix) && !Raised(installer)
    requires e in fix || e in installer
    ensures e in RunEvents(fix, installer)
  {
    assert RunEvents(fix, installer) == fix + installer + [Succeeded];
  }

  /** Joining the part of a run before installer creation to the part from it on. */
  lemma TraceFacts(front: seq<Event>, back: seq<Event>)
    requires PartShape(front, 1, 2) && !Raised(front)
    requires EndsWithOneSignal(back) && StepsInOrder(back)
    requires forall i :: 0 <= i < |back| ==> StepRank(back[i]) == 0 || StepRank(back[i]) >= 3
    ensures EndsWithOneSignal(front + back) && StepsInOrder(front + back)
  {
    var t := front + back;
    forall i, j | 0 <= i < j < |t| && StepRank(t[i]) > 0 && StepRank(t[j]) > 0
      ensures StepRank(t[i]) < StepRank(t[j])
    {
      if j < |front| {
        assert t[i] == front[i] && t[j] == front[j];
      } else if i >= |front| {
        assert t[i] == back[i - |front|] && t[j] == back[j - |front|];
      } else {
        assert t[i] == front[i] && t[j] == back[j - |front|];
      }
    }
    forall i | 0 <= i < |t| - 1 ensures !IsSignal(t[i]) {
      if i >= |front| { assert t[i] == back[i - |front|]; }
    }
  }

  /** The two parts of a run, each with the shape of its step. */
  lemma TraceParts(w: OptionsWorker, env: Environment)
    requires w.Valid()
    ensures var t := FixIconTrace(w, env);
      && PartShape(t, 1, 2)
      && (Raised(t) <==> FixIcon(w.extractedContents, env).Err? || env.rezipError.Some?)
      && (!Raised(t) ==> t[|t| - 1] == Rezipped(w.temporaryDirectory, w.filename))
    ensures w.shouldCreateInstaller ==>
      var t := InstallerTrace(w, env);
      && PartShape(t, 3, 5)
      && (Raised(t) <==> CreateInstaller(w.extractedContents, env).Err? || env.moveError.Some?)
      && (!Raised(t) ==> t[|t| - 1] == InstallerMoved(CreateInstaller(w.extractedContents, env).value.output,
                                                       w.installerDestination.value))
  {
    var ico := FixIconIco(w.extractedContents, env);
    FixIconEventsShape(ico, FixIcon(w.extractedContents, env), env.rezipError, w.temporaryDirectory, w.filename);
    FixIconEventsOutcome(ico, FixIcon(w.extractedContents, env), env.rezipError, w.temporaryDirectory, w.filename);
    if w.shouldCreateInstaller {
      var files := CreateInstallerFiles(w.extractedContents, env);
      var built := CreateInstaller(w.extractedContents, env);
      InstallerEventsShape(files, built, env.moveError, w.installerDestination.value);
      InstallerEventsOutcome(files, built, env.moveError, w.installerDestination.value);
    }
  }

  /** No step of a run happens before what it needs: the ICO before the patch, the patch
      before the rezip, the script before its compilation, the compilation before the move. */
  lemma RunPrerequisitesFirst(w: OptionsWorker, env: Environment)
    requires w.Valid()
    ensures PrerequisitesFirst(RunTrace(w, env))
  {
    FixIconEventsReady(FixIconIco(w.extractedContents, env), FixIcon(w.extractedContents, env), env.rezipError,
                       w.temporaryDirectory, w.filename);
    if w.shouldCreateInstaller {
      InstallerEventsReady(CreateInstallerFiles(w.extractedContents, env), CreateInstaller(w.extractedContents, env),
                           env.moveError, w.installerDestination.value);
    }
    var fix := if w.shouldFixIcon then FixIconTrace(w, env) else [];
    var installer := if w.shouldCreateInstaller then InstallerTrace(w, env) else [];
    PrerequisitesAppend(fix, installer);
    PrerequisitesAppend(fix + installer, [Succeeded]);
  }

  /** Joining two traces keeps each step after what it needs. */
  lemma PrerequisitesAppend(a: seq<Event>, b: seq<Event>)
    requires PrerequisitesFirst(a) && PrerequisitesFirst(b)
    ensures PrerequisitesFirst(a + b)
  {
    var t := a + b;
    forall i | 0 <= i < |t| ensures ReadyFor(t[..i], t[i]) {
      if i < |a| {
        assert t[..i] == a[..i] && t[i] == a[i];
      } else {
        var k := i - |a|;
        assert t[..i] == a + b[..k] && t[i] == b[k];
        ReadyForLonger(a, b[..k], b[k]);
      }
    }
  }

  /** What a step finds in a trace it still finds after more is put in front. */
  lemma ReadyForLonger(p: seq<Event>, q: seq<Event>, e: Event)
    requires ReadyFor(q, e)
    ensures ReadyFor(p + q, e)
  {
    var t := p + q;
    if e.IconPatched? {
      var j :| 0 <= j < |q| && q[j] == IcoWritten(e.icon);
      assert t[|p| + j] == q[j];
    } else if e.Rezipped? {
      var j :| 0 <= j < |q| && q[j].IconPatched?;
      assert t[|p| + j] == q[j];
    } else if e.InstallerCompiled? {
      var j :| 0 <= j < |q| && q[j].ScriptWritten? && q[j].scriptPath == e.scriptPath;
      assert t[|p| + j] == q[j];
    } else if e.InstallerMoved? {
      var j :| 0 <= j < |q| && q[j].InstallerCompiled?;
      assert t[|p| + j] == q[j];
    }
  }

  /** Files written before a later step fails stay in the trace of the run, whether it ends
      in success or in an error: the ICO `fix_icon` wrote before rcedit ran, and the
      `config.iss` that `create_installer` wrote before `iscc` ran. */
  lemma RunKeepsPartialWrites(w: OptionsWorker, env: Environment)
    requires w.Valid()
    ensures var t := RunTrace(w, env);
      && (w.shouldFixIcon && FixIconIco(w.extractedContents, env).Some? ==>
            IcoWritten(FixIconIco(w.extractedContents, env).value) in t)
      && (&& w.shouldCreateInstaller
          && (w.shouldFixIcon ==> FixIcon(w.extractedContents, env).Ok? && env.rezipError.None?)
          && CreateInstallerFiles(w.extractedContents, env).script.Some? ==>
            ScriptWritten(JoinPath(w.extractedContents, SCRIPT_NAME),
                          CreateInstallerFiles(w.extractedContents, env).script.value.1) in t)
  {
    var t := RunTrace(w, env);
    var fix := if w.shouldFixIcon then FixIconTrace(w, env) else [];
    var installer := if w.shouldCreateInstaller then InstallerTrace(w, env) else [];
    TraceParts(w, env);
    RunEventsPrefix(fix, installer);
    if w.shouldFixIcon && FixIconIco(w.extractedContents, env).Some? {
      assert t[1] == fix[1];
    }
    if && w.shouldCreateInstaller
       && (w.shouldFixIcon ==> FixIcon(w.extractedContents, env).Ok? && env.rezipError.None?)
       && CreateInstallerFiles(w.extractedContents, env).script.Some? {
      assert t[|fix| + 2] == installer[2];
    }
  }

  /** A run starts with its first part, followed by the installer part when the first did
      not raise. */
  lemma RunEventsPrefix(fix: seq<Event>, installer: seq<Event>)
    ensures var t := RunEvents(fix, installer);
      && |fix| <= |t| && (forall i :: 0 <= i < |fix| ==> t[i] == fix[i])
      && (!Raised(fix) ==>
            && |fix| + |installer| <= |t|
            && forall i :: 0 <= i < |installer| ==> t[|fix| + i] == installer[i])
  {
  }
}
