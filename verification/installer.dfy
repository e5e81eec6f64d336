/** The helpers of the launcher's `DependencyInstaller`: the Python version
    gate, the download percentage, the virtual-environment paths, and the
    steps that run a child process and turn its outcome into a
    `(success, message)` report or a raised exception. */
module Installer {
  import opened Wrappers
  import opened Text

  /** The `(success, message)` pair every installer step returns. */
  datatype Report = Report(ok: bool, message: string)

  /** A step either returns its report or lets an exception escape. */
  datatype StepOutcome = Returned(report: Report) | Raised(error: string)

  /** One child process: it ran and exited with a code, or it could not be
      started (`FileNotFoundError`). */
  datatype ProcessRun = Exited(code: int, stderr: string) | SpawnFailed(error: string)

  /** The run `check=True` accepts without raising `CalledProcessError`. */
  predicate Clean(r: ProcessRun) { r.Exited? && r.code == 0 }

  // ---------------------------------------------------------------------
  // Python version gate

  /** Lexicographic `a >= b` on version tuples, as Python compares them. */
  predicate LexAtLeast(a: seq<int>, b: seq<int>)
    decreases |b|
  {
    |b| == 0 || (|a| > 0 && (a[0] > b[0] || (a[0] == b[0] && LexAtLeast(a[1..], b[1..]))))
  }

  /** `major.minor.micro` as Python formats it. */
  function VersionText(major: nat, minor: nat, micro: nat): (t: string)
    ensures StartsWith(t, NatToString(major) + ".")
  {
    var head := NatToString(major) + ".";
    assert (head + NatToString(minor) + "." + NatToString(micro))[..|head|] == head;
    head + NatToString(minor) + "." + NatToString(micro)
  }

  /** `check_python_version` for the running interpreter's version. */
  function CheckPythonVersion(major: nat, minor: nat, micro: nat): (r: Report)
    ensures r.ok ==> r.message == "Python " + VersionText(major, minor, micro)
    ensures !r.ok ==> r.message == "Python 3.8+ required. Current: " + VersionText(major, minor, micro)
    ensures major >= 4 ==> r.ok
    ensures major <= 2 ==> !r.ok
  {
    if major < 3 || (major == 3 && minor < 8) then
      Report(false, "Python 3.8+ required. Current: " + VersionText(major, minor, micro))
    else
      Report(true, "Python " + VersionText(major, minor, micro))
  }

  /** The gate accepts exactly the versions with `(major, minor) >= (3, 8)`,
      and equally those with `(major, minor, micro) >= (3, 8, 0)`. */
  lemma {:induction false} VersionGateIsLexicographic(major: nat, minor: nat, micro: nat)
    ensures CheckPythonVersion(major, minor, micro).ok <==> LexAtLeast([major, minor], [3, 8])
    ensures CheckPythonVersion(major, minor, micro).ok <==> LexAtLeast([major, minor, micro], [3, 8, 0])
  {
    var a, b := [major, minor], [3, 8];
    assert a[1..] == [minor] && b[1..] == [8];
    assert LexAtLeast([minor], [8]) <==> minor >= 8 by {
      assert [minor][1..] == [] && [8][1..] == [];
    }
    var a3, b3 := [major, minor, micro], [3, 8, 0];
    assert a3[1..] == [minor, micro] && b3[1..] == [8, 0];
    assert LexAtLeast([minor, micro], [8, 0]) <==> minor >= 8 by {
      assert [minor, micro][1..] == [micro] && [8, 0][1..] == [0];
      assert LexAtLeast([micro], [0]) by {
        assert [micro][1..] == [] && [0][1..] == [];
      }
    }
  }

  // ---------------------------------------------------------------------
  // Download progress

  /** `report_progress` inside `download_file`: the percentage passed to the
      callback as `Downloading... N%`, or `None` when nothing is reported. */
  function DownloadPercent(blockNum: nat, blockSize: nat, totalSize: int, hasCallback: bool): (p: Option<nat>)
    ensures p.Some? <==> hasCallback && totalSize > 0
    ensures p.Some? ==> p.value <= 100
    ensures p.Some? ==> (p.value == 100 <==> blockNum * blockSize >= totalSize)
    ensures p.Some? && p.value < 100 ==>
      p.value * totalSize <= blockNum * blockSize * 100 < (p.value + 1) * totalSize
  {
    if hasCallback && totalSize > 0 then
      var q := blockNum * blockSize * 100 / totalSize;
      FloorDivision(blockNum * blockSize * 100, totalSize);
      Some(if q < 100 then q else 100)
    else None
  }

  /** Python's `//` for a non-negative numerator and a positive divisor. */
  lemma FloorDivision(a: nat, t: int)
    requires t > 0
    ensures (a / t) * t <= a < (a / t + 1) * t
    ensures a / t >= 100 <==> a >= 100 * t
  {
    var q, r := a / t, a % t;
    assert a == q * t + r && 0 <= r < t;
    assert (q + 1) * t == q * t + t;
    MulMonotone(q, 100, t);
    MulMonotone(100, q + 1, t);
  }

  /** More blocks never lower the reported percentage. */
  lemma DownloadPercentMonotone(b1: nat, b2: nat, blockSize: nat, totalSize: int, hasCallback: bool)
    requires b1 <= b2
    ensures DownloadPercent(b1, blockSize, totalSize, hasCallback).Some? ==>
      DownloadPercent(b1, blockSize, totalSize, hasCallback).value <= DownloadPercent(b2, blockSize, totalSize, hasCallback).value
  {
    if hasCallback && totalSize > 0 {
      var a1, a2 := b1 * blockSize * 100, b2 * blockSize * 100;
      assert b1 * blockSize <= b2 * blockSize;
      assert a1 <= a2;
      FloorDivision(a1, totalSize);
      FloorDivision(a2, totalSize);
      MulMonotone(a1 / totalSize, a2 / totalSize + 1, totalSize);
    }
  }

  lemma MulMonotone(x: int, y: int, t: int)
    requires t > 0
    ensures x >= y ==> x * t >= y * t
  {
  }

  // ---------------------------------------------------------------------
  // Requirement names

  /** `requirement.split(">=")[0]`: everything before the first `>=`. */
  function PackageName(req: string): (name: string)
    ensures |name| <= |req| && name == req[..|name|]
    ensures forall i :: 0 <= i < |name| ==> !OccursAt(req, ">=", i)
    ensures |name| < |req| ==> OccursAt(req, ">=", |name|)
    decreases |req|
  {
    if |req| < 2 then req
    else if req[..2] == ">=" then ""
    else
      var rest := PackageName(req[1..]);
      assert !OccursAt(req, ">=", 0);
      assert forall i :: 1 <= i <= |rest| ==> !OccursAt(req, ">=", i) by {
        forall i | 1 <= i <= |rest| ensures !OccursAt(req, ">=", i) {
          OccursAtShift(req, ">=", i - 1);
        }
      }
      OccursAtShift(req, ">=", |rest|);
      [req[0]] + rest
  }

  /** The contract of `PackageName` pins the name down: any prefix that ends
      at the first `>=`, or is the whole requirement when there is none, is
      that name. */
  lemma PackageNameUnique(req: string, p: string)
    requires |p| <= |req| && p == req[..|p|]
    requires forall i :: 0 <= i < |p| ==> !OccursAt(req, ">=", i)
    requires |p| < |req| ==> OccursAt(req, ">=", |p|)
    ensures p == PackageName(req)
  {
    var q := PackageName(req);
    assert |p| < |q| ==> !OccursAt(req, ">=", |p|);
    assert |q| < |p| ==> !OccursAt(req, ">=", |q|);
    assert |p| == |q|;
  }

  /** The pinned requirements, in install order. */
  const Requirements: seq<string> := [
    "PyQt6>=6.4.0", "pymobiledevice3>=3.0.0", "Pillow>=9.0.0",
    "cryptography>=36.0.0", "requests>=2.28.0", "six>=1.16.0"]

  /** The modules whose import is tested after installation. */
  const ImportModules: seq<string> := ["PyQt6", "pymobiledevice3", "PIL"]

  /** The names shown in the progress lines, one per requirement. */
  const PackageNames: seq<string> := ["PyQt6", "pymobiledevice3", "Pillow", "cryptography", "requests", "six"]

  /** Each pinned requirement's package name; the first two are also the
      modules tested, while `Pillow` is imported as `PIL`. */
  lemma RequirementNames(k: nat)
    requires k < |Requirements|
    ensures PackageName(Requirements[k]) == PackageNames[k]
    ensures k < |ImportModules| ==> (PackageNames[k] == ImportModules[k] <==> k < 2)
  {
    var versions := ["6.4.0", "3.0.0", "9.0.0", "36.0.0", "2.28.0", "1.16.0"];
    assert Requirements[k] == PackageNames[k] + ">=" + versions[k];
    NameBeforeVersion(PackageNames[k], versions[k]);
  }

  /** A requirement `name>=version` whose name holds no `>` yields `name`. */
  lemma NameBeforeVersion(name: string, version: string)
    requires '>' !in name
    ensures PackageName(name + ">=" + version) == name
  {
    var req := name + ">=" + version;
    assert req[..|name|] == name;
    assert req[|name|..|name| + 2] == ">=";
    forall i | 0 <= i < |name| ensures !OccursAt(req, ">=", i) {
      assert req[i] == name[i];
    }
    PackageNameUnique(req, name);
  }

  /** Progress line for the `i`-th of `n` requirements. */
  function InstallingMessage(req: string, i: nat, n: nat): string {
    "Installing " + PackageName(req) + " (" + NatToString(i) + "/" + NatToString(n) + ")..."
  }

  function TestingMessage(moduleName: string, i: nat): string {
    "Testing " + moduleName + " import..."
  }

  // ---------------------------------------------------------------------
  // Running processes in order

  /** Item `k` is the first whose process does not exit cleanly. */
  predicate FailsFirstAt(items: seq<string>, run: string -> ProcessRun, k: nat) {
    k < |items| && !Clean(run(items[k])) && forall j :: 0 <= j < k ==> Clean(run(items[j]))
  }

  /** Every item's process exits cleanly. */
  predicate AllClean(items: seq<string>, run: string -> ProcessRun) {
    forall j :: 0 <= j < |items| ==> Clean(run(items[j]))
  }

  /** Reference: the index of the first item whose process does not exit
      cleanly, found by walking the list. */
  function FirstFailure(items: seq<string>, run: string -> ProcessRun): (k: Option<nat>)
    ensures k.Some? ==> FailsFirstAt(items, run, k.value)
    ensures k.None? <==> AllClean(items, run)
    decreases |items|
  {
    if |items| == 0 then None
    else if !Clean(run(items[0])) then Some(0)
    else
      var rest := FirstFailure(items[1..], run);
      assert forall j :: 1 <= j < |items| ==> items[j] == items[1..][j - 1];
      if rest.None? then None else Some(rest.value + 1)
  }

  /** At most one item fails first. */
  lemma FailsFirstAtUnique(items: seq<string>, run: string -> ProcessRun, k: nat)
    requires FailsFirstAt(items, run, k)
    ensures forall m: nat :: FailsFirstAt(items, run, m) ==> m == k
  {
  }

  /** At most one item fails first, so the reference and any answer that
      meets the loop's contract agree. */
  lemma {:induction false} FirstFailureIsTheStop(items: seq<string>, run: string -> ProcessRun, stop: Option<nat>)
    requires stop.Some? ==> FailsFirstAt(items, run, stop.value)
    requires stop.None? <==> AllClean(items, run)
    ensures stop == FirstFailure(items, run)
  {
    var k := FirstFailure(items, run);
    if stop.Some? && k.Some? {
      assert !(stop.value < k.value) && !(k.value < stop.value);
    }
  }

  /** Start one process per item, in order, announcing each, and stop at the
      first that does not exit cleanly. */
  method RunInOrder(items: seq<string>, run: string -> ProcessRun, announce: (string, nat) -> string)
    returns (stop: Option<nat>, log: seq<string>)
    ensures stop.Some? ==> FailsFirstAt(items, run, stop.value)
    ensures stop.None? <==> AllClean(items, run)
    ensures |log| == (if stop.Some? then stop.value + 1 else |items|) <= |items|
    ensures forall j :: 0 <= j < |log| ==> log[j] == announce(items[j], j + 1)
  {
    log := [];
    var i := 0;
    while i < |items|
      invariant 0 <= i <= |items|
      invariant forall j :: 0 <= j < i ==> Clean(run(items[j]))
      invariant |log| == i
      invariant forall j :: 0 <= j < i ==> log[j] == announce(items[j], j + 1)
    {
      log := log + [announce(items[i], i + 1)];
      if !Clean(run(items[i])) {
        stop := Some(i);
        return;
      }
      i := i + 1;
    }
    stop := None;
  }

  /** What a step reports about the item whose process failed: a process that
      could not start raises; a non-zero exit is reported with its stderr. */
  function FailureOutcome(prefix: string, item: string, r: ProcessRun): (o: StepOutcome)
    ensures r.SpawnFailed? <==> o.Raised?
    ensures o.Returned? ==> !o.report.ok && StartsWith(o.report.message, prefix + item + ": ")
    ensures o.Returned? && r.Exited? ==> o.report.message == prefix + item + ": " + r.stderr
    ensures o.Raised? && r.SpawnFailed? ==> o.error == r.error
  {
    match r
    case SpawnFailed(e) => Raised(e)
    case Exited(_, err) =>
      var head := prefix + item + ": ";
      assert (head + err)[..|head|] == head;
      Returned(Report(false, head + err))
  }

  /** `install_python_dependencies`: upgrade pip (a non-zero exit is
      ignored), then install each requirement in order, stopping at the
      first that fails. */
  method InstallPythonDependencies(requirements: seq<string>, upgrade: ProcessRun, install: string -> ProcessRun)
    returns (outcome: StepOutcome, log: seq<string>)
    ensures upgrade.SpawnFailed? ==> outcome == Raised(upgrade.error) && log == ["Upgrading pip..."]
    ensures !upgrade.SpawnFailed? ==> forall k: nat :: FailsFirstAt(requirements, install, k) ==>
      outcome == FailureOutcome("Failed to install ", requirements[k], install(requirements[k])) && |log| == k + 2
    ensures outcome == Returned(Report(true, "All Python dependencies installed successfully")) <==>
      !upgrade.SpawnFailed? && AllClean(requirements, install)
    ensures 1 <= |log| <= |requirements| + 1 && log[0] == "Upgrading pip..."
    ensures !upgrade.SpawnFailed? && AllClean(requirements, install) ==> |log| == |requirements| + 1
    ensures forall j :: 1 <= j < |log| ==> log[j] == InstallingMessage(requirements[j - 1], j, |requirements|)
  {
    if upgrade.SpawnFailed? {
      return Raised(upgrade.error), ["Upgrading pip..."];
    }
    var n := |requirements|;
    var stop, announced := RunInOrder(requirements, install, (req: string, i: nat) => InstallingMessage(req, i, n));
    log := ["Upgrading pip..."] + announced;
    if stop.None? {
      outcome := Returned(Report(true, "All Python dependencies installed successfully"));
    } else {
      FailsFirstAtUnique(requirements, install, stop.value);
      outcome := FailureOutcome("Failed to install ", requirements[stop.value], install(requirements[stop.value]));
    }
  }

  /** `test_imports`: import each module in a child interpreter, stopping at
      the first that fails. */
  method TestImports(modules: seq<string>, importRun: string -> ProcessRun)
    returns (outcome: StepOutcome, log: seq<string>)
    ensures forall k: nat :: FailsFirstAt(modules, importRun, k) ==>
      outcome == FailureOutcome("Failed to import ", modules[k], importRun(modules[k])) && |log| == k + 1
    ensures outcome == Returned(Report(true, "All imports successful")) <==> AllClean(modules, importRun)
    ensures |log| <= |modules|
    ensures AllClean(modules, importRun) ==> |log| == |modules|
    ensures forall j :: 0 <= j < |log| ==> log[j] == TestingMessage(modules[j], j + 1)
  {
    var stop, announced := RunInOrder(modules, importRun, TestingMessage);
    log := announced;
    if stop.None? {
      outcome := Returned(Report(true, "All imports successful"));
    } else {
      FailsFirstAtUnique(modules, importRun, stop.value);
      outcome := FailureOutcome("Failed to import ", modules[stop.value], importRun(modules[stop.value]));
    }
  }

  // ---------------------------------------------------------------------
  // Virtual-environment paths

  /** `get_venv_python`, `get_venv_pythonw` and `get_venv_pip`, as path
      components. */
  function VenvPython(isWindows: bool): seq<string> {
    if isWindows then ["venv", "Scripts", "python.exe"] else ["venv", "bin", "python"]
  }

  function VenvPythonw(isWindows: bool): seq<string> {
    if isWindows then ["venv", "Scripts", "pythonw.exe"] else ["venv", "bin", "python"]
  }

  function VenvPip(isWindows: bool): seq<string> {
    if isWindows then ["venv", "Scripts", "pip.exe"] else ["venv", "bin", "pip"]
  }

  /** The three tools live in one directory of the environment, `Scripts` on
      Windows and `bin` elsewhere; only Windows has a separate windowed
      interpreter; pip is never the interpreter. */
  lemma VenvLayout(isWindows: bool)
    ensures |VenvPython(isWindows)| == |VenvPythonw(isWindows)| == |VenvPip(isWindows)| == 3
    ensures VenvPython(isWindows)[..2] == VenvPythonw(isWindows)[..2] == VenvPip(isWindows)[..2]
      == ["venv", if isWindows then "Scripts" else "bin"]
    ensures VenvPythonw(isWindows) == VenvPython(isWindows) <==> !isWindows
    ensures VenvPip(isWindows) != VenvPython(isWindows)
  {
    if isWindows {
      assert VenvPythonw(isWindows)[2] != VenvPython(isWindows)[2];
      assert VenvPip(isWindows)[2][1] != VenvPython(isWindows)[2][1];
    } else {
      assert VenvPip(isWindows)[2][1] != VenvPython(isWindows)[2][1];
    }
  }

  // ---------------------------------------------------------------------
  // Making sure an interpreter is there

  /** Whether an interpreter was found, and where. */
  datatype PythonState = PythonState(installed: bool, executable: Option<string>)

  /** `self.python_installed and self.python_executable` */
  predicate Available(st: PythonState) {
    st.installed && st.executable.Some? && st.executable.value != ""
  }

  /** `ensure_python_available`. `install` is what `install_python_windows`
      reports; after a successful install, `found` is what the fresh `PATH`
      search of `refresh_python_path` turns up. Returns the report and the
      installer's state afterwards. */
  function EnsurePythonAvailable(st: PythonState, isWindows: bool, install: Report, found: Option<string>)
    : (r: (Report, PythonState))
    ensures r.0.ok <==> Available(r.1)
    ensures Available(st) ==> r.1 == st && r.0.message == "Python is available at " + st.executable.value
    ensures !Available(st) && !isWindows ==>
      r.0 == Report(false, "Automatic Python installation only supported on Windows")
    ensures !Available(st) && isWindows && !install.ok ==>
      r.0 == Report(false, "Failed to install Python: " + install.message) && r.1 == st
    ensures r.1 != st ==> isWindows && install.ok && r.1 == PythonState(true, found)
  {
    if Available(st) then (Report(true, "Python is available at " + st.executable.value), st)
    else if !isWindows then (Report(false, "Automatic Python installation only supported on Windows"), st)
    else if !install.ok then (Report(false, "Failed to install Python: " + install.message), st)
    else
      var after := if found.Some? && found.value != "" then PythonState(true, found) else st;
      if !Available(after) then (Report(false, "Python installation completed but Python still not found"), after)
      else (Report(true, "Python is now available"), after)
  }

  /** Once an interpreter is available, asking again changes nothing. */
  lemma EnsurePythonIdempotent(st: PythonState, isWindows: bool, install: Report, found: Option<string>,
                               install2: Report, found2: Option<string>)
    requires EnsurePythonAvailable(st, isWindows, install, found).0.ok
    ensures var after := EnsurePythonAvailable(st, isWindows, install, found).1;
      EnsurePythonAvailable(after, isWindows, install2, found2) == (Report(true, "Python is available at " + after.executable.value), after)
  {
  }

  // ---------------------------------------------------------------------
  // pip, venv and system libraries

  /** `check_pip_available`: both a failing exit and a missing interpreter
      are caught. */
  function CheckPipAvailable(run: ProcessRun): (r: Report)
    ensures r.ok <==> run.Exited? && run.code == 0
    ensures r.message == (if r.ok then "pip is available" else "pip is not available")
  {
    if Clean(run) then Report(true, "pip is available") else Report(false, "pip is not available")
  }

  /** `create_virtual_environment`. `run` is the `python -m venv venv`
      process, started only when no `venv` exists; `errorText` is how the
      `CalledProcessError` for its non-zero exit prints. A process that
      cannot start is not caught. Returns the outcome and the lines passed to
      the callback. */
  function CreateVirtualEnvironment(venvExists: bool, run: ProcessRun, errorText: string)
    : (r: (StepOutcome, seq<string>))
    ensures venvExists ==> r == (Returned(Report(true, "Virtual environment already exists")), ["Virtual environment already exists"])
    ensures !venvExists ==> |r.1| >= 1 && r.1[0] == "Creating virtual environment..."
    ensures r.0.Raised? <==> !venvExists && run.SpawnFailed?
    ensures r.0.Returned? ==> (r.0.report.ok <==> venvExists || Clean(run))
    ensures r.0.Returned? && !r.0.report.ok ==>
      r.0.report.message == "Failed to create virtual environment: " + errorText
        && r.1[|r.1| - 1] == r.0.report.message
  {
    if venvExists then
      (Returned(Report(true, "Virtual environment already exists")), ["Virtual environment already exists"])
    else match run
      case SpawnFailed(e) => (Raised(e), ["Creating virtual environment..."])
      case Exited(code, _) =>
        if code == 0 then
          (Returned(Report(true, "Virtual environment created successfully")),
           ["Creating virtual environment...", "Virtual environment created successfully"])
        else
          var msg := "Failed to create virtual environment: " + errorText;
          (Returned(Report(false, msg)), ["Creating virtual environment...", msg])
  }

  /** Homebrew packages installed on macOS. */
  const BrewPackages: seq<string> := ["libusb", "libimobiledevice", "usbmuxd"]

  /** The first package whose `brew install` could not be started: a failing
      install is ignored ("might already be installed"), a missing `brew`
      escapes. */
  function FirstSpawnFailure(packages: seq<string>, run: string -> ProcessRun): (k: Option<nat>)
    ensures k.Some? ==> k.value < |packages| && run(packages[k.value]).SpawnFailed?
    ensures k.Some? ==> forall j :: 0 <= j < k.value ==> run(packages[j]).Exited?
    ensures k.None? <==> forall j :: 0 <= j < |packages| ==> run(packages[j]).Exited?
    decreases |packages|
  {
    if |packages| == 0 then None
    else if run(packages[0]).SpawnFailed? then Some(0)
    else
      var rest := FirstSpawnFailure(packages[1..], run);
      assert forall j :: 1 <= j < |packages| ==> packages[j] == packages[1..][j - 1];
      if rest.None? then None else Some(rest.value + 1)
  }

  /** `install_system_dependencies_macos`: `brewCheck` is `brew --version`;
      when it fails, `brewInstall` is the Homebrew install script; then each
      package is installed. */
  function SystemDependenciesMacos(isMacos: bool, brewCheck: ProcessRun, brewInstall: ProcessRun,
                                   packageRun: string -> ProcessRun): (o: StepOutcome)
    ensures !isMacos ==> o == Returned(Report(true, "Not macOS - skipping system dependencies"))
    ensures o.Returned? && !o.report.ok <==>
      isMacos && !Clean(brewCheck) && brewInstall.Exited? && brewInstall.code != 0
    ensures o.Returned? && !o.report.ok ==> o.report.message == "Failed to install Homebrew"
    ensures o.Raised? <==>
      isMacos && ((!Clean(brewCheck) && brewInstall.SpawnFailed?)
        || ((Clean(brewCheck) || Clean(brewInstall)) && exists j :: 0 <= j < |BrewPackages| && packageRun(BrewPackages[j]).SpawnFailed?))
  {
    if !isMacos then Returned(Report(true, "Not macOS - skipping system dependencies"))
    else if !Clean(brewCheck) && brewInstall.SpawnFailed? then Raised(brewInstall.error)
    else if !Clean(brewCheck) && !Clean(brewInstall) then Returned(Report(false, "Failed to install Homebrew"))
    else match FirstSpawnFailure(BrewPackages, packageRun)
      case Some(k) => Raised(packageRun(BrewPackages[k]).error)
      case None => Returned(Report(true, "System dependencies installed"))
  }
}
