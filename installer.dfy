/** `create_installer`: the Inno Setup script written into the extracted folder, and the
    path where the compiled installer is expected. */
module Installer {
  import opened Results
  import opened Text
  import opened Escaping
  import opened Package

  const VERSION := "1.0.0"
  const OUTPUT_DIRECTORY := "Generated Installer"
  const SCRIPT_NAME := "config.iss"
  const NO_TITLE := "'NoneType' object has no attribute 'group'"
  const NO_NAME := "'name'"
  const OUTPUT_MISSING := "Did not output to expected spot"

  /** The values the script interpolates. */
  datatype Field = Title | PackageName | Executable | Version | OutputDir | OutputName | Icon

  datatype ScriptValues = ScriptValues(
    title: string, packageName: string, executable: string, version: string,
    outputDir: string, outputName: string, icon: string)
  {
    function Get(f: Field): string
    {
      match f
      case Title => title
      case PackageName => packageName
      case Executable => executable
      case Version => version
      case OutputDir => outputDir
      case OutputName => outputName
      case Icon => icon
    }
  }

  /** A piece of the script's f-string: literal text, or a placeholder. */
  datatype Piece = Lit(text: string) | Hole(field: Field)

  /** The f-string of `create_installer`, with its doubled braces already read as single ones. */
  const INNO_TEMPLATE: seq<Piece> := [
    Lit("; Automatically generated by TurboWarp. Avoid changing by hand.\n\n#define TITLE \""),
    Hole(Title),
    Lit("\"\n#define PACKAGE_NAME \""),
    Hole(PackageName),
    Lit("\"\n#define EXECUTABLE \""),
    Hole(Executable),
    Lit("\"\n#define VERSION \""),
    Hole(Version),
    Lit("\"\n\n[Setup]\nAppName={#PACKAGE_NAME}\nAppVersion={#VERSION}\nWizardStyle=classic\n"
      + "DefaultDirName={autopf}\\{#PACKAGE_NAME}\nUninstallDisplayIcon={app}\\{#EXECUTABLE}\n"
      + "DefaultGroupName={#TITLE}\nPrivilegesRequired=lowest\nCompression=lzma2\n"
      + "SolidCompression=yes\nOutputDir="),
    Hole(OutputDir),
    Lit("\nOutputBaseFilename="),
    Hole(OutputName),
    Lit("\nSetupIconFile="),
    Hole(Icon),
    Lit("\n\n[Files]\nSource: \"*\"; DestDir: \"{app}\"; Excludes: \"*.iss\"; Flags: recursesubdirs ignoreversion\n"
      + "\n[Icons]\nName: \"{group}\\{#TITLE}\"; Filename: \"{app}\\{#EXECUTABLE}\"\n"
      + "\n[Run]\nFilename: \"{app}\\{#EXECUTABLE}\"; Description: \"Launch application\"; Flags: postinstall nowait skipifsilent\n"
      + "\n[UninstallDelete]\nType: filesandordirs; Name: \"{localappdata}\\{#PACKAGE_NAME}\"\n")
  ]

  /** Fill a template: literal text as it is, every value through `escape_inno_value`. */
  function Render(template: seq<Piece>, values: ScriptValues): string
  {
    if template == [] then []
    else
      (match template[0]
       case Lit(t) => t
       case Hole(f) => EscapeInnoValue(values.Get(f)))
      + Render(template[1..], values)
  }

  /** The template's own text, without any value. */
  function LiteralText(template: seq<Piece>): string
  {
    if template == [] then []
    else (if template[0].Lit? then template[0].text else []) + LiteralText(template[1..])
  }

  /** `f'{package_name} Setup'`. */
  function SetupBaseName(packageName: string): string
  {
    packageName + " Setup"
  }

  /** The values `create_installer` puts into its script. */
  function InstallerValues(title: string, packageName: string, executable: string, icon: string): ScriptValues
  {
    ScriptValues(title, packageName, executable, VERSION, OUTPUT_DIRECTORY, SetupBaseName(packageName), icon)
  }

  /** The script `create_installer` writes. */
  function InstallerScript(title: string, packageName: string, executable: string, icon: string): string
  {
    Render(INNO_TEMPLATE, InstallerValues(title, packageName, executable, icon))
  }

  /** Where `create_installer` looks for the compiled installer: built from the name as it
      is, not as it was escaped into the script. */
  function ExpectedOutputFile(dir: string, packageName: string): string
  {
    JoinPath(JoinPath(dir, OUTPUT_DIRECTORY), SetupBaseName(packageName) + ".exe")
  }

  /** The same path built from the text a script with these values gives for `OutputDir`
      and `OutputBaseFilename`. */
  function ScriptOutputFile(dir: string, values: ScriptValues): string
  {
    JoinPath(JoinPath(dir, EscapeInnoValue(values.outputDir)), EscapeInnoValue(values.outputName) + ".exe")
  }

  lemma {:induction false} RenderQuotes(template: seq<Piece>, values: ScriptValues)
    ensures Count('"', Render(template, values)) == Count('"', LiteralText(template))
  {
    if template != [] {
      RenderQuotes(template[1..], values);
      var head := match template[0] case Lit(t) => t case Hole(f) => EscapeInnoValue(values.Get(f));
      CountAppend('"', head, Render(template[1..], values));
      CountAppend('"', if template[0].Lit? then template[0].text else [], LiteralText(template[1..]));
      if template[0].Hole? {
        EscapeInnoValueHasNoQuote(values.Get(template[0].field));
        CountZero('"', head);
      }
    }
  }

  /** Every `"` of the script comes from the template: no title, name, executable name or
      icon path can add one, so none can close the quoted string it sits in. */
  lemma ScriptQuotesComeFromTemplate(title: string, packageName: string, executable: string, icon: string)
    ensures Count('"', InstallerScript(title, packageName, executable, icon)) == Count('"', LiteralText(INNO_TEMPLATE))
  {
    RenderQuotes(INNO_TEMPLATE, InstallerValues(title, packageName, executable, icon));
  }

  /** The path checked after compiling agrees with the one the script names exactly when the
      package name holds neither `{` nor `"`: for any other name the check looks elsewhere. */
  lemma ExpectedOutputMatchesScript(dir: string, title: string, packageName: string, executable: string, icon: string)
    ensures ScriptOutputFile(dir, InstallerValues(title, packageName, executable, icon))
            == ExpectedOutputFile(dir, packageName)
            <==> '{' !in packageName && '"' !in packageName
  {
    var v := InstallerValues(title, packageName, executable, icon);
    var e := EscapeInnoValue(packageName);
    var d := JoinPath(dir, OUTPUT_DIRECTORY);
    ScriptOutputFileShape(dir, v);
    ExpectedOutputFileShape(dir, packageName);
    JoinPathInjective(d, e + " Setup.exe", packageName + " Setup.exe");
    SameSuffixCancels(e, packageName, " Setup.exe");
    EscapeInnoValueUnchanged(packageName);
  }

  lemma ScriptOutputFileShape(dir: string, v: ScriptValues)
    requires v.outputDir == OUTPUT_DIRECTORY && v.outputName == SetupBaseName(v.packageName)
    ensures ScriptOutputFile(dir, v)
            == JoinPath(JoinPath(dir, OUTPUT_DIRECTORY), EscapeInnoValue(v.packageName) + " Setup.exe")
  {
    FixedTextUnescaped(v.outputDir);
    EscapedOutputName(v.packageName, v.outputName);
  }

  lemma EscapedOutputName(packageName: string, outputName: string)
    requires outputName == SetupBaseName(packageName)
    ensures EscapeInnoValue(outputName) + ".exe" == EscapeInnoValue(packageName) + " Setup.exe"
  {
    var s := " Setup";
    FixedTextUnescaped(s);
    EscapeInnoValueAppend(packageName, s);
    var e := EscapeInnoValue(packageName);
    assert e + s + ".exe" == e + " Setup.exe";
  }

  lemma ExpectedOutputFileShape(dir: string, packageName: string)
    ensures ExpectedOutputFile(dir, packageName) == JoinPath(JoinPath(dir, OUTPUT_DIRECTORY), packageName + " Setup.exe")
  {
    assert packageName + " Setup" + ".exe" == packageName + " Setup.exe";
  }

  lemma FixedTextUnescaped(s: string)
    requires s == OUTPUT_DIRECTORY || s == " Setup"
    ensures EscapeInnoValue(s) == s
  {
    FixedTextPlain(s);
    EscapeInnoValueUnchanged(s);
  }

  lemma FixedTextPlain(s: string)
    requires s == OUTPUT_DIRECTORY || s == " Setup"
    ensures '{' !in s && '"' !in s
  {
  }

  lemma SameSuffixCancels(a: string, b: string, t: string)
    ensures a + t == b + t <==> a == b
  {
    if a + t == b + t {
      assert |a| == |b|;
      assert a == (a + t)[..|a|];
    }
  }

  /** The outcome of a successful `create_installer`: where the script was written, the
      values rendered into it, and where the compiled installer is. */
  datatype Built = Built(scriptPath: string, values: ScriptValues, output: string)
  {
    /** The text of the script written to `scriptPath`. */
    function Script(): string
    {
      Render(INNO_TEMPLATE, values)
    }
  }

  /** `create_installer(dir)`: find the executable, read the name, the title and the icon,
      write the script, compile it and check for the installer where it is expected. */
  function CreateInstaller(dir: string, env: Environment): (r: Result<Built>)
    ensures r.Ok? <==>
              && ExecutableName(env.listing).Ok? && env.manifest.name.Some? && env.titleMatch.Some?
              && GetIconAsIco(dir, env).Ok? && env.isccError.None? && env.outputExists
    ensures r.Ok? ==>
              && r.value.output == ExpectedOutputFile(dir, env.manifest.name.value)
              && r.value.scriptPath == JoinPath(dir, SCRIPT_NAME)
              && r.value.values == InstallerValues(UnescapeHtml(env.titleMatch.value), env.manifest.name.value,
                                                   ExecutableName(env.listing).value, GetIconAsIco(dir, env).value)
    ensures ExecutableName(env.listing).Err? ==> r == Err(NO_EXECUTABLE)
    ensures ExecutableName(env.listing).Ok? && env.manifest.name.None? ==> r == Err(NO_NAME)
    ensures ExecutableName(env.listing).Ok? && env.manifest.name.Some? && env.titleMatch.None? ==> r == Err(NO_TITLE)
    ensures && ExecutableName(env.listing).Ok? && env.manifest.name.Some? && env.titleMatch.Some?
            && GetIconAsIco(dir, env).Err?
            ==> r == Err(GetIconAsIco(dir, env).message)
    ensures && ExecutableName(env.listing).Ok? && env.manifest.name.Some? && env.titleMatch.Some?
            && GetIconAsIco(dir, env).Ok? && env.isccError.Some?
            ==> r == Err(env.isccError.value)
    ensures && ExecutableName(env.listing).Ok? && env.manifest.name.Some? && env.titleMatch.Some?
            && GetIconAsIco(dir, env).Ok? && env.isccError.None? && !env.outputExists
            ==> r == Err(OUTPUT_MISSING)
  {
    match ExecutableName(env.listing)
    case Err(e) => Err(e)
    case Ok(executable) =>
      match env.manifest.name
      case None => Err(NO_NAME)
      case Some(packageName) =>
        match env.titleMatch
        case None => Err(NO_TITLE)
        case Some(rawTitle) =>
          match GetIconAsIco(dir, env)
          case Err(e) => Err(e)
          case Ok(icon) =>
            var values := InstallerValues(UnescapeHtml(rawTitle), packageName, executable, icon);
            if env.isccError.Some? then Err(env.isccError.value)
            else if !env.outputExists then Err(OUTPUT_MISSING)
            else Ok(Built(JoinPath(dir, SCRIPT_NAME), values, ExpectedOutputFile(dir, packageName)))
  }

  /** The files `create_installer` has written when it returns or raises: the ICO, the
      script at `scriptPath` rendered from `values`, and whether `iscc` compiled that script. */
  datatype InstallerFiles = InstallerFiles(icon: Option<string>, script: Option<(string, ScriptValues)>, compiled: bool)

  /** The ICO is written once the executable, name and title are found and the icon
      converts; the script is written right after it, before `iscc` runs, and stays when
      `iscc` fails or leaves no installer. */
  function CreateInstallerFiles(dir: string, env: Environment): (f: InstallerFiles)
    ensures f.icon.Some? <==>
              && ExecutableName(env.listing).Ok? && env.manifest.name.Some? && env.titleMatch.Some?
              && GetIconAsIco(dir, env).Ok?
    ensures f.icon.Some? ==> f.icon.value == GetIconAsIco(dir, env).value
    ensures f.script.Some? <==> f.icon.Some?
    ensures f.script.Some? ==> f.script.value.0 == JoinPath(dir, SCRIPT_NAME) && f.script.value.1.icon == f.icon.value
    ensures f.script.Some? ==>
              f.script.value.1 == InstallerValues(UnescapeHtml(env.titleMatch.value), env.manifest.name.value,
                                                  ExecutableName(env.listing).value, f.icon.value)
    ensures f.compiled <==> f.script.Some? && env.isccError.None?
    ensures CreateInstaller(dir, env).Ok? <==> f.compiled && env.outputExists
    ensures CreateInstaller(dir, env).Ok? ==>
              f.script == Some((CreateInstaller(dir, env).value.scriptPath, CreateInstaller(dir, env).value.values))
  {
    if || ExecutableName(env.listing).Err? || env.manifest.name.None? || env.titleMatch.None?
       || GetIconAsIco(dir, env).Err?
    then InstallerFiles(None, None, false)
    else
      var icon := GetIconAsIco(dir, env).value;
      var values := InstallerValues(UnescapeHtml(env.titleMatch.value), env.manifest.name.value,
                                    ExecutableName(env.listing).value, icon);
      InstallerFiles(Some(icon), Some((JoinPath(dir, SCRIPT_NAME), values)), env.isccError.None?)
  }
}
