# Packager Extras, modelled in Dafny

Packager Extras is a small Windows desktop tool that post-processes an application
built by the TurboWarp packager. The user opens the `.zip` the packager produced. The
tool extracts it into a temporary directory. It can then fix the icon of the `.exe`
(convert the project icon to ICO, patch it in with rcedit, recompress the archive in
place), build an Inno Setup installer (write a `config.iss` script, compile it with
`iscc`, move the installer where the user chose), or both.

This project models the core of `app.py`:

- `text.dfy` (module `Text`): Python's `str.replace` (left to right, non-overlapping),
  `str.endswith`, and `os.path.join` as the Windows join the tool runs with.
- `escaping.dfy` (module `Escaping`): `escape_html`, `unescape_html` and
  `escape_inno_value`. `escape_html` and `escape_inno_value` are each proved equal to a
  per-character definition. `unescape_html` is proved to invert `escape_html`. Inno
  escaping is proved to leave no `"`.
- `package.dfy` (module `Package`): the parsed `package.json`, the choice of the
  executable, the archive's root folder, `verify_folder`, and the icon path rule. All
  outcomes of the outside world for one run are gathered in `Environment`.
- `installer.dfy` (module `Installer`): the `config.iss` f-string as a template of literal
  pieces and placeholders, the values put into it, the path where the compiled installer
  is looked for, and `create_installer` with all of its error cases.
- `workers.dfy` (module `Workers`): the extraction worker and `OptionsWorker._run`. A run is
  the sequence of `Event`s it emits and the disk effects it has, including the files a step
  writes before a later command fails (the ICO, `config.iss`). `Run` is proved against the
  trace function `RunTrace`, and the ordering properties are lemmas about that function.
- `session.dfy` (module `Session`): the two stateful objects. `MainWindow` holds at most one
  open project. `ProjectSession` stands for `ProjectOptionsWidget` and is a class whose
  callbacks update its fields. Both keep one shared `history` of what the user is shown and
  what happens on disk.

Results of Python calls that can raise are `Result` values. The error message is `str(e)`,
as the error box shows it.

## Model

| member | source | states |
|---|---|---|
| `Escaping.EscapeHtmlIsPerChar` | app.py:63-71 | The chained replacements of `escape_html` equal replacing every character on its own: `&`, `>`, `<`, `'`, `"` by their entities, all others kept. |
| `Escaping.EscapeHtmlRemovesSpecials` | app.py:63-71 | The output of `escape_html` contains none of `<`, `>`, `"`, `'`. |
| `Escaping.EscapeHtmlRoundTrip` | app.py:63-81 | `unescape_html(escape_html(s)) == s` for every string `s`. |
| `Escaping.EscapeInnoValueIsPerChar` | app.py:89-94 | `escape_inno_value` works one character at a time: `{` becomes `{{`, `"` is dropped, every other character is kept in order. |
| `Escaping.EscapeInnoValueHasNoQuote` | app.py:89-94 | The result never contains `"`, and the empty string maps to the empty string. |
| `Escaping.EscapeInnoValueRoundTrip` | app.py:89-94 | Reading `{{` back as `{` gives the original value with its quotes removed. |
| `Escaping.EscapeInnoValueLossless` | app.py:89-94 | That read-back equals the value exactly when the value holds no `"`. |
| `Escaping.EscapeInnoValueUnchanged` | app.py:89-94 | The escaped text equals the value exactly when the value holds neither `{` nor `"`. |
| `Text.JoinPathInjective` | app.py:147 | Joining one directory with two names gives the same path exactly when the names are equal. |
| `Package.FirstExecutable` | app.py:18-22 | No result exactly when no entry ends in `.exe` other than `notification_helper.exe`. Otherwise the result is such an entry and no earlier entry qualifies. |
| `Package.GetExecutableName` | app.py:18-22 | The loop over the listing returns the first qualifying name, which is in the listing, or `'Cannot find executable'` when there is none. |
| `Package.HelperAloneIsNotExecutable` | app.py:18-22 | Any listing raises `'Cannot find executable'` exactly when every `.exe` in it is `notification_helper.exe`. |
| `Package.BeforeFirstSlash` | app.py:152-154 | `name.split('/')[0]` is a prefix of the name, contains no `/`, and is followed by `/` whenever it is shorter than the name. |
| `Package.ZipInnerFolderName` | app.py:152-154 | The root folder is the first entry's name up to its first `/`. An archive with no entries fails with `'list index out of range'`. |
| `Package.VerifyFolder` | app.py:179-181 | A folder is accepted exactly when some existing file is named `resources.pak` and sits directly in that folder (its path is the folder joined with `resources.pak`). |
| `Package.IconSourceName` | app.py:40-46 | The icon source is `icon.png` without a `window` block, and `window.icon` with one. A `window` block without `icon` raises `KeyError('icon')`. |
| `Package.GetIconAsIco` | app.py:40-51 | The ICO path is the joined source icon path followed by `.ico`. It fails exactly when the icon name fails or the image cannot be converted. |
| `Installer.RenderQuotes` | app.py:105-137 | Filling any template puts exactly as many `"` in the text as its literal pieces hold, because every value goes through `escape_inno_value`. |
| `Installer.ScriptQuotesComeFromTemplate` | app.py:99-137 | Every `"` of the generated script is in the fixed text, whatever the title, package name, executable and icon path are. |
| `Installer.ExpectedOutputMatchesScript` | app.py:102-147 | The path checked after compiling (built from the raw name) equals the path the script names (built from the escaped name) exactly when the package name holds neither `{` nor `"`. |
| `Installer.CreateInstaller` | app.py:96-150 | Succeeds exactly when an executable is found, the manifest has a `name`, the title is found, the icon converts, `iscc` succeeds and the installer exists. Each failure gives its own message, in the source's order; a failed icon conversion gives the icon's error. On success the script is `config.iss` with the escaped values and the result is `<dir>\Generated Installer\<name> Setup.exe`. |
| `Installer.CreateInstallerFiles` | app.py:96-145 | What `create_installer` has written when it returns or raises. The ICO is written exactly when the executable, name and title are found and the icon converts. `config.iss`, with the escaped values, is written exactly when the ICO is. Whenever it is written, its values are the unescaped title, the package name, the executable and the ICO path, so a script left by a failed `iscc` or a missing installer holds the same values as a successful one. `iscc` compiled it exactly when it was written and `iscc` succeeded. A successful call wrote the script it returns. |
| `Workers.FixIconIco` | app.py:53-55 | `fix_icon` writes the ICO exactly when the executable is found and the icon converts. A successful fix patched in that ICO. |
| `Workers.FixIcon` | app.py:53-61 | Succeeds exactly when the executable is found, the icon converts and rcedit succeeds. It yields the executable's path and the ICO path. Each failure gives its own message, in the source's order: `'Cannot find executable'`, then the icon's error, then rcedit's. |
| `Workers.ExtractPackage` | app.py:211-218 | The extracted folder is the destination joined with the root folder. It is accepted exactly when the archive opens, has entries, and the folder holds `resources.pak`. Otherwise it fails with `'Invalid zip selected'` or the archive's error. |
| `Workers.FixIconAndRezip` | app.py:239-249 | The icon step emits its progress, writes the ICO, patches the icon, then recompresses. It stops at the first error, keeping what was written, and `ok` reports whether it did not stop. |
| `Workers.CreateAndMoveInstaller` | app.py:250-253 | The installer step emits its progress, writes the ICO and `config.iss`, compiles, then moves the installer to the destination. It stops at the first error, keeping what was written. |
| `Workers.Run` | app.py:193-201 | The worker's run emits exactly the trace `RunTrace` and ends with one signal. |
| `Workers.RunEndsWithOneSignal` | app.py:193-201 | Every run ends with exactly one success or error signal, and nothing else is a signal. |
| `Workers.RunStepsInOrder` | app.py:245-254 | Icon patch, rezip, script write, compilation and installer move each happen at most once, in that order. |
| `Workers.RunStepsOnlyIfSelected` | app.py:245-254 | The icon is patched and the archive rezipped only when fix-icon is selected. The script is written and compiled and the installer moved only when create-installer is selected. |
| `Workers.RunSucceedsIff` | app.py:245-254 | A run ends in success exactly when every selected step succeeds. |
| `Workers.RunSuccessCompletesSteps` | app.py:245-254 | A successful run has rezipped the archive (if fix-icon was selected) and moved the built installer to its destination (if create-installer was selected). |
| `Workers.RunPrerequisitesFirst` | app.py:245-254 | No step comes before what it needs: the icon is patched with an ICO written earlier, the rezip follows the patch, a script is compiled only after it was written to the same path, and the installer is moved only after compiling. |
| `Workers.RunKeepsPartialWrites` | app.py:245-254 | Files written before a later step fails stay in the run, success or not: the ICO of `fix_icon` once it was written, and `config.iss` once `create_installer` wrote it, even when `iscc` or the output check then fails. |
| `Session.ExplorerPath` | app.py:183-184 | The path given to explorer is the path with every `/` turned into `\` and nothing else changed. |
| `Session.MainWindow.constructor` | app.py:451-478 | A new window has no open project, no process running and the file selection button shown, with nothing in its history. |
| `Session.MainWindow.OnProcessStarted` | app.py:521-522 | The process flag is set, and the project, the selection button and the history are unchanged. |
| `Session.MainWindow.OnProcessEnded` | app.py:524-525 | The process flag is cleared, and the project, the selection button and the history are unchanged. |
| `Session.MainWindow.OnFileSelected` | app.py:505-519 | With a project open, the window shows `'Already have a file open'` and changes nothing else. Otherwise it opens a fresh session for the file, marks a process as ongoing and hides the selection button. |
| `Session.MainWindow.SelectClicked` | app.py:442-447 | A cancelled dialog does nothing. A chosen file is opened as in `on_file_selected`: with a project open only the error is added; otherwise a fresh valid session for this window, file and temporary directory, nothing extracted yet, a process marked ongoing, the selection button hidden and nothing added to the history. |
| `Session.MainWindow.DropEvent` | app.py:486-489 | A dropped file is ignored while a process runs, and otherwise opened as in `on_file_selected`, with the same outcomes as `SelectClicked`. |
| `Session.MainWindow.OnProjectDone` | app.py:527-531 | The project is dropped and the selection button comes back. |
| `Session.ProjectSession.constructor` | app.py:307-326 | A new session has its temporary directory, no extracted contents, no controls, no progress widget and nothing to reveal. |
| `Session.ProjectSession.RunExtractWorker` | app.py:323-326 | The extraction worker runs `ExtractWorker._run` (app.py:211-218, `Workers.ExtractPackage`) and its signal goes to the connected callback. A successful extraction shows the options and ends the process. A failed one shows the error, deletes the temporary directory and removes the session. |
| `Session.ProjectSession.FinishedExtract` | app.py:328-356 | The process ends, and the extracted folder is recorded while the options are shown. |
| `Session.ProjectSession.ExtractWorkerError` | app.py:407-409 | The error is shown, then the temporary directory is deleted and the window drops the session. |
| `Session.ProjectSession.Click` | app.py:372-395 | With neither box checked: `'You have to check at least one of the boxes'`. With an installer wanted and the save dialog cancelled: `'No file selected'`. In both cases only the controls come back, and the temporary directory and session stay. Otherwise a worker starts with the checked steps and the chosen destination, which is also remembered for revealing. |
| `Session.ProjectSession.RunWorker` | app.py:385-393 | On success: the run's trace, `Success`, the reveal of the saved installer, then the temporary directory is deleted and the session removed. On failure: the run's trace and the error box. The session stays valid and open with its controls back. Its temporary directory, extracted folder and installer destination are kept. |
| `Session.ProjectSession.WorkerError` | app.py:411-413 | The error is shown and the session is cleaned up. The temporary directory is kept. |
| `Session.ProjectSession.WorkerFinished` | app.py:415-420 | `Success` is shown, the installer is revealed if one was saved, then the session is cleaned up and removed. |
| `Session.ProjectSession.Cleanup` | app.py:400-405 | The process ends, the progress widget goes, and the controls are shown again when they exist. |
| `Session.ProjectSession.ClickCancel` | app.py:397-398 | Go Back deletes the temporary directory and removes the session. |
| `Session.ProjectSession.Remove` | app.py:422-424 | The temporary directory is deleted and the window drops the session, with the selection button shown again. |

`ProjectSession.Valid` is the invariant every session callback keeps while the session is
open. The process flag is set exactly while extraction or an options run is under way. The
controls are shown exactly when neither is. A running worker carries the session's own
directory, archive and destination.

## Left out

- Qt widgets, layouts, message boxes, labels and the progress text box: only their effect on the session state and the shown messages is kept (`history`).
- Threads and signals: each worker runs as one step, and its final signal is delivered to the session's callback directly. Concurrency between the UI and a running worker is not modelled.
- The outside programs and libraries (rcedit, `iscc`, explorer, PIL, `zipfile`, `shutil.make_archive`, `os.replace`, `tempfile`): their outcomes are fields of `Environment`, or parameters of the session callbacks, except for the two file operations named in the next two lines. Their effects are events, including the files a step writes before a later command fails (the ICO before rcedit, `config.iss` before `iscc`). What a failed command leaves behind itself (a partial archive from `shutil.make_archive`, partial `iscc` output) is not modelled. The compiled installer's own event records the script it came from, not its file: where `iscc` puts it is `Installer.ExpectedOutputMatchesScript`.
- Installer.CreateInstaller: writing `config.iss` (app.py:139-140) is assumed to succeed. The file is opened without an `encoding`, so on Windows a value the ANSI code page cannot encode raises `UnicodeEncodeError` before `iscc` runs and leaves an empty `config.iss`. The model has no such failure: there `CreateInstaller` can still succeed, and `CreateInstallerFiles` and the run's trace record `ScriptWritten` with the rendered values.
- Session.ProjectSession.Remove: deleting the temporary directory (app.py:423) is assumed to succeed. If `cleanup()` raised, the session would not be dropped and the exception would escape the Qt slot; the model always drops it.
- The title search in `index.html` (a Python regular expression) is a parameter `titleMatch`. A missing match raises the `AttributeError` message of `.group` on `None`. Reading `index.html` and `package.json` and parsing JSON are not modelled: the manifest arrives parsed, and missing files are not modelled.
- `os.path.join` is the Windows join for relative names only: drive letters and absolute second components are not modelled.
- The listing of the extracted folder is one fixed sequence per run. `get_executable_name` is called again by `create_installer` and is assumed to see the same listing.
- `Package.GetIconAsIco`: the contents of the ICO file are not modelled, only its path and whether conversion succeeds.
- `Escaping.EscapeInnoValueRoundTrip`: reading `{{` back as `{` is how Inno Setup reads constants. Whether Inno Setup treats a given field (`#define` strings, `OutputBaseFilename`) that way is not modelled. `Installer.ExpectedOutputMatchesScript` compares the script's literal text.
- Newlines or other characters in values that would break the script's line structure are not constrained: `escape_inno_value` does not handle them either.
- The suggested file name of the installer save dialog, the update checker (network), `closeEvent`'s confirmation dialog and `dragEnterEvent` are UI or network and are left out.
- `Session.ProjectSession.Click`: the checkbox states and the save dialog's answer are parameters. Both checkboxes start checked, but that default is not modelled.
