/** The session state machine behind the window: `MainWindow` holds at most one open
    project (`ProjectOptionsWidget`, here `ProjectSession`), whose callbacks run the two
    workers and react to their signals. Signals are direct calls; each worker runs as one
    step whose result is delivered to its callback. */
module Session {
  import opened Results
  import opened Text
  import opened Package
  import opened Workers

  const ALREADY_OPEN := "Already have a file open"
  const NO_BOX_CHECKED := "You have to check at least one of the boxes"
  const NO_FILE_SELECTED := "No file selected"

  /** `reveal_in_explorer`: the path as explorer is given it, forward slashes turned round. */
  function ExplorerPath(path: string): (r: string)
    ensures |r| == |path| && '/' !in r
    ensures forall i :: 0 <= i < |r| ==> r[i] == (if path[i] == '/' then '\\' else path[i])
  {
    ReplaceCharByChar(path, '/', '\\');
    Replace(path, "/", "\\")
  }

  /** What `worker_finished` reveals: the installer, when one was saved somewhere. */
  function RevealEvents(fileToReveal: Option<string>): seq<Event>
  {
    if fileToReveal.Some? && fileToReveal.value != [] then [Revealed(ExplorerPath(fileToReveal.value))] else []
  }

  class MainWindow {
    var configureWidget: ProjectSession?   // the open project, if any
    var isProcessOngoing: bool             // a worker is running; drops are refused
    var selectShown: bool                  // the file selection button is in the layout
    var history: seq<Event>                // everything shown to the user or done on disk

    /** `MainWindow.__init__`: no project open, no process running, the selection shown. */
    constructor()
      ensures configureWidget == null && !isProcessOngoing && selectShown && history == []
    {
      configureWidget := null;
      isProcessOngoing := false;
      selectShown := true;
      history := [];
    }

    /** `on_file_selected`: open `file` in a new project with a fresh temporary directory,
        unless a project is already open. */
    method OnFileSelected(file: string, tempDir: string)
      modifies this
      ensures old(configureWidget) != null ==>
        && configureWidget == old(configureWidget)
        && history == old(history) + [ErrorShown(ALREADY_OPEN)]
        && isProcessOngoing == old(isProcessOngoing) && selectShown == old(selectShown)
      ensures old(configureWidget) == null ==>
        && configureWidget != null && fresh(configureWidget)
        && configureWidget.window == this
        && configureWidget.filename == file && configureWidget.tempDir == tempDir
        && configureWidget.extractedContents.None?
        && configureWidget.Valid()
        && isProcessOngoing && !selectShown
        && history == old(history)
    {
      if configureWidget != null {
        history := history + [ErrorShown(ALREADY_OPEN)];
        return;
      }
      isProcessOngoing := true;
      var session := new ProjectSession(this, file, tempDir);
      configureWidget := session;
      selectShown := false;
    }

    /** `SelectWidget.click`: a file chosen in the dialog is opened; a cancelled dialog
        (empty name) does nothing. */
    method SelectClicked(file: string, tempDir: string)
      modifies this
      ensures file == [] ==> configureWidget == old(configureWidget) && history == old(history)
                             && isProcessOngoing == old(isProcessOngoing) && selectShown == old(selectShown)
      ensures file != [] && old(configureWidget) == null ==>
        && configureWidget != null && fresh(configureWidget)
        && configureWidget.window == this
        && configureWidget.filename == file && configureWidget.tempDir == tempDir
        && configureWidget.extractedContents.None?
        && configureWidget.Valid()
        && isProcessOngoing && !selectShown
        && history == old(history)
      ensures file != [] && old(configureWidget) != null ==>
        && configureWidget == old(configureWidget) && history == old(history) + [ErrorShown(ALREADY_OPEN)]
        && isProcessOngoing == old(isProcessOngoing) && selectShown == old(selectShown)
    {
      if file != [] {
        OnFileSelected(file, tempDir);
      }
    }

    /** `dropEvent`: a dropped file is opened only while no process is running. */
    method DropEvent(file: string, tempDir: string)
      modifies this
      ensures old(isProcessOngoing) ==>
        && configureWidget == old(configureWidget) && history == old(history)
        && isProcessOngoing && selectShown == old(selectShown)
      ensures !old(isProcessOngoing) && old(configureWidget) != null ==>
        && configureWidget == old(configureWidget) && history == old(history) + [ErrorShown(ALREADY_OPEN)]
        && !isProcessOngoing && selectShown == old(selectShown)
      ensures !old(isProcessOngoing) && old(configureWidget) == null ==>
        && configureWidget != null && fresh(configureWidget)
        && configureWidget.window == this
        && configureWidget.filename == file && configureWidget.tempDir == tempDir
        && configureWidget.extractedContents.None?
        && configureWidget.Valid()
        && isProcessOngoing && !selectShown
        && history == old(history)
    {
      if !isProcessOngoing {
        OnFileSelected(file, tempDir);
      }
    }

    /** `on_process_started`: a worker is running from now on. */
    method OnProcessStarted()
      modifies this
      ensures isProcessOngoing
      ensures configureWidget == old(configureWidget) && selectShown == old(selectShown) && history == old(history)
    {
      isProcessOngoing := true;
    }

    /** `on_process_ended`: no worker is running any more. */
    method OnProcessEnded()
      modifies this
      ensures !isProcessOngoing
      ensures configureWidget == old(configureWidget) && selectShown == old(selectShown) && history == old(history)
    {
      isProcessOngoing := false;
    }

    /** `on_project_done`: drop the project and show the selection button again. */
    method OnProjectDone()
      requires configureWidget != null
      modifies this
      ensures configureWidget == null && selectShown
      ensures isProcessOngoing == old(isProcessOngoing) && history == old(history)
    {
      configureWidget := null;
      selectShown := true;
    }
  }

  class ProjectSession {
    const window: MainWindow
    const filename: string
    const tempDir: string                    // name of the session's temporary directory
    var tempDirPresent: bool
    var extractedContents: Option<string>    // set once extraction succeeded
    var controlsVisible: bool                // checkboxes, Continue and Go Back
    var progressShown: bool                  // the progress widget
    var fileToReveal: Option<string>
    var worker: Option<OptionsWorker>        // the options worker started and not yet finished

    /** The session while it is the window's open project: the process flag is set exactly
        while extraction or an options run is under way, and the controls are shown exactly
        when neither is. */
    ghost predicate Valid()
      reads this, window
    {
      && window.configureWidget == this
      && tempDirPresent
      && !window.selectShown
      && (window.isProcessOngoing <==> extractedContents.None? || worker.Some?)
      && (controlsVisible <==> extractedContents.Some? && worker.None?)
      && (progressShown <==> worker.Some?)
      && (worker.Some? ==>
            && extractedContents.Some?
            && worker.value.Valid()
            && worker.value.temporaryDirectory == tempDir
            && worker.value.extractedContents == extractedContents.value
            && worker.value.filename == filename
            && fileToReveal == worker.value.installerDestination)
    }

    /** `ProjectOptionsWidget.__init__`: a temporary directory is created and extraction
        starts. */
    constructor(window: MainWindow, filename: string, tempDir: string)
      ensures this.window == window && this.filename == filename && this.tempDir == tempDir
      ensures tempDirPresent && extractedContents.None? && !controlsVisible && !progressShown
      ensures fileToReveal.None? && worker.None?
    {
      this.window := window;
      this.filename := filename;
      this.tempDir := tempDir;
      tempDirPresent := true;
      extractedContents := None;
      controlsVisible := false;
      progressShown := false;
      fileToReveal := None;
      worker := None;
    }

    /** The extraction worker's result delivered: `finished_extract` on success,
        `extract_worker_error` on failure. `archive` and `files` are as in `ExtractPackage`. */
    method RunExtractWorker(archive: Result<seq<string>>, files: set<string>)
      requires Valid() && extractedContents.None?
      modifies this, window
      ensures var r := ExtractPackage(tempDir, archive, files);
        && (r.Ok? ==> Valid() && extractedContents == Some(r.value) && controlsVisible
                      && !window.isProcessOngoing && window.history == old(window.history))
        && (r.Err? ==> && !tempDirPresent && window.configureWidget == null && window.selectShown
                       && !window.isProcessOngoing
                       && window.history == old(window.history) + [ErrorShown(r.message), TempDirRemoved])
    {
      var r := ExtractPackage(tempDir, archive, files);
      if r.Ok? {
        FinishedExtract(r.value);
      } else {
        ExtractWorkerError(r.message);
      }
    }

    /** `finished_extract`: the process ends and the options are shown. */
    method FinishedExtract(contents: string)
      requires Valid() && extractedContents.None?
      modifies this, window
      ensures Valid() && extractedContents == Some(contents) && controlsVisible
      ensures !window.isProcessOngoing && window.history == old(window.history)
      ensures fileToReveal == old(fileToReveal) && worker == old(worker)
    {
      window.OnProcessEnded();
      extractedContents := Some(contents);
      controlsVisible := true;
    }

    /** `extract_worker_error`: report the error, then remove the session. */
    method ExtractWorkerError(err: string)
      requires window.configureWidget == this
      modifies this, window
      ensures !tempDirPresent && window.configureWidget == null && window.selectShown
      ensures !window.isProcessOngoing
      ensures window.history == old(window.history) + [ErrorShown(err), TempDirRemoved]
    {
      WorkerError(err);
      Remove();
    }

    /** `click` (Continue): start an options run with the checked steps. `destination` is
        the name chosen in the save dialog when an installer is wanted, empty when that
        dialog was cancelled. */
    method Click(fixIcon: bool, createInstaller: bool, destination: string)
      requires Valid() && controlsVisible
      modifies this, window
      ensures Valid()
      ensures !fixIcon && !createInstaller ==>
        && window.history == old(window.history) + [ErrorShown(NO_BOX_CHECKED)]
        && controlsVisible && !window.isProcessOngoing && fileToReveal == old(fileToReveal)
      ensures (fixIcon || createInstaller) && createInstaller && destination == [] ==>
        && window.history == old(window.history) + [ErrorShown(NO_FILE_SELECTED)]
        && controlsVisible && !window.isProcessOngoing && fileToReveal.None?
      ensures (fixIcon || createInstaller) && (createInstaller ==> destination != []) ==>
        && window.history == old(window.history)
        && window.isProcessOngoing && progressShown && !controlsVisible
        && worker == Some(OptionsWorker(tempDir, extractedContents.value, filename, fixIcon, createInstaller,
                                        if createInstaller then Some(destination) else None))
        && fileToReveal == worker.value.installerDestination
      ensures extractedContents == old(extractedContents)
    {
      window.OnProcessStarted();
      if !fixIcon && !createInstaller {
        Cleanup();
        window.history := window.history + [ErrorShown(NO_BOX_CHECKED)];
        return;
      }
      controlsVisible := false;
      fileToReveal := None;
      var installerDestination := None;
      if createInstaller {
        // `pick_installer_destination`, called while the worker is constructed
        if destination == [] {
          Cleanup();
          window.history := window.history + [ErrorShown(NO_FILE_SELECTED)];
          return;
        }
        fileToReveal := Some(destination);
        installerDestination := Some(destination);
      }
      worker := Some(OptionsWorker(tempDir, extractedContents.value, filename, fixIcon, createInstaller,
                                   installerDestination));
      progressShown := true;
    }

    /** The options worker's run and the delivery of its final signal: `worker_finished` on
        success, `worker_error` with the message otherwise. */
    method RunWorker(env: Environment)
      requires Valid() && worker.Some?
      modifies this, window
      ensures var w := old(worker.value);
        var events := RunTrace(w, env);
        && (w.StepsSucceed(env) ==>
              && window.history == old(window.history) + events + [SuccessShown]
                                   + RevealEvents(old(fileToReveal)) + [TempDirRemoved]
              && !tempDirPresent && window.configureWidget == null && window.selectShown
              && !window.isProcessOngoing)
        && (!w.StepsSucceed(env) ==>
              && window.history == old(window.history) + events + [ErrorShown(events[|events| - 1].message)]
              && Valid() && controlsVisible && !window.isProcessOngoing && worker.None?
              && extractedContents == old(extractedContents) && fileToReveal == old(fileToReveal)
              && tempDirPresent == old(tempDirPresent)
              && window.configureWidget == old(window.configureWidget)
              && window.selectShown == old(window.selectShown))
    {
      var w := worker.value;
      var events := Run(w, env);
      RunEndsWithOneSignal(w, env);
      RunSucceedsIff(w, env);
      worker := None;
      window.history := window.history + events;
      var last := events[|events| - 1];
      if last == Succeeded {
        WorkerFinished();
      } else {
        WorkerError(last.message);
      }
    }

    /** `worker_error`: report the error and give the controls back. */
    method WorkerError(err: string)
      modifies this, window
      ensures window.history == old(window.history) + [ErrorShown(err)]
      ensures !window.isProcessOngoing && !progressShown
      ensures controlsVisible == extractedContents.Some?
      ensures tempDirPresent == old(tempDirPresent) && extractedContents == old(extractedContents)
      ensures fileToReveal == old(fileToReveal) && worker == old(worker)
      ensures window.configureWidget == old(window.configureWidget) && window.selectShown == old(window.selectShown)
    {
      window.history := window.history + [ErrorShown(err)];
      Cleanup();
    }

    /** `worker_finished`: report success, reveal the installer, clean up and remove the
        session. */
    method WorkerFinished()
      requires window.configureWidget == this
      modifies this, window
      ensures window.history == old(window.history) + [SuccessShown] + RevealEvents(old(fileToReveal)) + [TempDirRemoved]
      ensures !tempDirPresent && window.configureWidget == null && window.selectShown
      ensures !window.isProcessOngoing
    {
      window.history := window.history + [SuccessShown] + RevealEvents(fileToReveal);
      Cleanup();
      Remove();
    }

    /** `cleanup`: the process ends, the progress widget goes, and the controls come back
        when they exist. */
    method Cleanup()
      modifies this, window
      ensures !window.isProcessOngoing && !progressShown
      ensures controlsVisible == extractedContents.Some?
      ensures tempDirPresent == old(tempDirPresent) && extractedContents == old(extractedContents)
      ensures fileToReveal == old(fileToReveal) && worker == old(worker)
      ensures window.history == old(window.history)
      ensures window.configureWidget == old(window.configureWidget) && window.selectShown == old(window.selectShown)
    {
      window.OnProcessEnded();
      progressShown := false;
      controlsVisible := extractedContents.Some?;
    }

    /** `click_cancel` (Go Back): remove the session. */
    method ClickCancel()
      requires Valid() && controlsVisible
      modifies this, window
      ensures !tempDirPresent && window.configureWidget == null && window.selectShown
      ensures window.history == old(window.history) + [TempDirRemoved]
      ensures window.isProcessOngoing == old(window.isProcessOngoing)
    {
      Remove();
    }

    /** `remove`: delete the temporary directory and let the window drop the session. */
    method Remove()
      requires window.configureWidget == this
      modifies this, window
      ensures !tempDirPresent && window.configureWidget == null && window.selectShown
      ensures window.history == old(window.history) + [TempDirRemoved]
      ensures window.isProcessOngoing == old(window.isProcessOngoing)
      ensures extractedContents == old(extractedContents) && worker == old(worker)
    {
      tempDirPresent := false;
      window.history := window.history + [TempDirRemoved];
      window.OnProjectDone();
    }
  }
}
