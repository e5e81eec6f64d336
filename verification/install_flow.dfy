/** The launcher window's installation run (`InstallerGUI.run_installation`)
    and the flags that guard starting it again and launching the
    application. Each step's own behaviour is in `Installer`; here a step is
    only its outcome. */
module InstallFlow {
  import opened Wrappers
  import opened Installer

  /** The steps of `run_installation`, in the order they run. */
  datatype StepName =
    | EnsurePython | CheckVersion | CheckPip | CreateVenv
    | SystemDeps | PythonDeps | ImportTest

  /** A step of the plan: the progress shown when it starts, and whether a
      `False` report from it aborts the installation. */
  datatype Stage = Stage(name: StepName, progress: nat, fatal: bool)

  /** The plan: the system-library step exists only on macOS, and is the one
      step whose `False` report is only logged as a warning. */
  function Plan(isMacos: bool): (plan: seq<Stage>)
    ensures |plan| == if isMacos then 7 else 6
    ensures forall i, j :: 0 <= i < j < |plan| ==> plan[i].progress < plan[j].progress
    ensures forall i :: 0 <= i < |plan| ==> 0 < plan[i].progress < 100
    ensures forall i :: 0 <= i < |plan| ==> (plan[i].fatal <==> plan[i].name != SystemDeps)
    ensures isMacos <==> exists i :: 0 <= i < |plan| && plan[i].name == SystemDeps
  {
    var head := [Stage(EnsurePython, 5, true), Stage(CheckVersion, 15, true),
                 Stage(CheckPip, 25, true), Stage(CreateVenv, 35, true)];
    var tail := [Stage(PythonDeps, 55, true), Stage(ImportTest, 90, true)];
    var plan := head + (if isMacos then [Stage(SystemDeps, 45, false)] else []) + tail;
    assert !isMacos ==> forall i :: 0 <= i < |plan| ==> plan[i].name != SystemDeps;
    assert isMacos ==> plan[4].name == SystemDeps;
    plan
  }

  /** Whether a step's outcome ends the run: an escaped exception always
      does; a `False` report only from a fatal step. */
  predicate Fails(st: Stage, o: StepOutcome) {
    o.Raised? || (st.fatal && !o.report.ok)
  }

  /** The message `installation_failed` receives. */
  function FailureMessage(o: StepOutcome): (m: string)
    ensures o.Raised? ==> m == "Unexpected error: " + o.error
    ensures o.Returned? ==> m == o.report.message
  {
    match o
    case Raised(e) => "Unexpected error: " + e
    case Returned(r) => r.message
  }

  /** A run: the values the status bar shows, and the failure reported, if
      any. */
  datatype Run = Run(trail: seq<nat>, failure: Option<string>)

  /** The `try` block of `run_installation` over a plan: show each step's
      progress and run it; the first failing step sets the bar to 0 and ends
      the run, and getting through every step sets it to 100. */
  function RunSteps(plan: seq<Stage>, outcome: StepName -> StepOutcome): (r: Run)
    ensures 2 <= |r.trail| <= |plan| + 1 || (|plan| == 0 && r.trail == [100])
    ensures r.trail[|r.trail| - 1] == (if r.failure.None? then 100 else 0)
    decreases |plan|
  {
    if |plan| == 0 then Run([100], None)
    else if Fails(plan[0], outcome(plan[0].name)) then
      Run([plan[0].progress, 0], Some(FailureMessage(outcome(plan[0].name))))
    else
      var rest := RunSteps(plan[1..], outcome);
      Run([plan[0].progress] + rest.trail, rest.failure)
  }

  /** Reference: the index of the first step of the plan that fails. */
  function FirstFailingStep(plan: seq<Stage>, outcome: StepName -> StepOutcome): (k: Option<nat>)
    ensures k.Some? ==> k.value < |plan| && Fails(plan[k.value], outcome(plan[k.value].name))
    ensures k.Some? ==> forall j :: 0 <= j < k.value ==> !Fails(plan[j], outcome(plan[j].name))
    ensures k.None? <==> forall j :: 0 <= j < |plan| ==> !Fails(plan[j], outcome(plan[j].name))
    decreases |plan|
  {
    if |plan| == 0 then None
    else if Fails(plan[0], outcome(plan[0].name)) then Some(0)
    else
      var rest := FirstFailingStep(plan[1..], outcome);
      assert forall j :: 1 <= j < |plan| ==> plan[j] == plan[1..][j - 1];
      if rest.None? then None else Some(rest.value + 1)
  }

  /** The progress values of the steps, in order. */
  function Progresses(plan: seq<Stage>): (ps: seq<nat>)
    ensures |ps| == |plan|
    ensures forall i :: 0 <= i < |plan| ==> ps[i] == plan[i].progress
  {
    seq(|plan|, i requires 0 <= i < |plan| => plan[i].progress)
  }

  /** A run shows the progress of every step up to and including the first
      that fails, then 0 with that step's message; with no failing step it
      shows every step's progress, then 100. */
  lemma RunStopsAtFirstFailure(plan: seq<Stage>, outcome: StepName -> StepOutcome)
    ensures FirstFailingStep(plan, outcome).None? ==>
      RunSteps(plan, outcome) == Run(Progresses(plan) + [100], None)
    ensures FirstFailingStep(plan, outcome).Some? ==>
      var k := FirstFailingStep(plan, outcome).value;
      RunSteps(plan, outcome) == Run(Progresses(plan[..k + 1]) + [0], Some(FailureMessage(outcome(plan[k].name))))
  {
    if FirstFailingStep(plan, outcome).None? {
      RunThroughEveryStep(plan, outcome);
    } else {
      RunStopsAtFailure(plan, outcome, FirstFailingStep(plan, outcome).value);
    }
  }

  lemma {:induction false} RunThroughEveryStep(plan: seq<Stage>, outcome: StepName -> StepOutcome)
    requires forall j :: 0 <= j < |plan| ==> !Fails(plan[j], outcome(plan[j].name))
    ensures RunSteps(plan, outcome) == Run(Progresses(plan) + [100], None)
    decreases |plan|
  {
    if |plan| > 0 {
      var tail := plan[1..];
      assert forall j :: 0 <= j < |tail| ==> tail[j] == plan[j + 1];
      RunThroughEveryStep(tail, outcome);
      ProgressesPrefix(plan, |tail|);
      assert plan[..|plan|] == plan;
    }
  }

  lemma {:induction false} RunStopsAtFailure(plan: seq<Stage>, outcome: StepName -> StepOutcome, k: nat)
    requires k < |plan| && Fails(plan[k], outcome(plan[k].name))
    requires forall j :: 0 <= j < k ==> !Fails(plan[j], outcome(plan[j].name))
    ensures RunSteps(plan, outcome) == Run(Progresses(plan[..k + 1]) + [0], Some(FailureMessage(outcome(plan[k].name))))
    decreases k
  {
    ProgressesPrefix(plan, k);
    if k > 0 {
      var tail := plan[1..];
      assert forall j :: 0 <= j < |tail| ==> tail[j] == plan[j + 1];
      RunStopsAtFailure(tail, outcome, k - 1);
    }
  }

  /** The progress values of the first `k + 1` steps: the first step's, then
      those of the next `k`. */
  lemma ProgressesPrefix(plan: seq<Stage>, k: nat)
    requires k < |plan|
    ensures Progresses(plan[..k + 1]) == [plan[0].progress] + Progresses(plan[1..][..k])
  {
    assert plan[..k + 1] == [plan[0]] + plan[1..][..k];
  }

  /** A run depends on the outcomes only through which steps fail and what
      the failing steps report. */
  lemma {:induction false} RunDependsOnVerdicts(plan: seq<Stage>, o1: StepName -> StepOutcome, o2: StepName -> StepOutcome)
    requires forall i :: 0 <= i < |plan| ==> Fails(plan[i], o1(plan[i].name)) == Fails(plan[i], o2(plan[i].name))
    requires forall i :: 0 <= i < |plan| && Fails(plan[i], o1(plan[i].name)) ==>
      FailureMessage(o1(plan[i].name)) == FailureMessage(o2(plan[i].name))
    ensures RunSteps(plan, o1) == RunSteps(plan, o2)
    decreases |plan|
  {
    if |plan| > 0 {
      assert forall j :: 1 <= j < |plan| ==> plan[j] == plan[1..][j - 1];
      RunDependsOnVerdicts(plan[1..], o1, o2);
    }
  }

  /** On macOS a `False` from the system-library step is only a warning: the
      run is the same as if the step had succeeded. */
  lemma SystemDepsFailureIsOnlyAWarning(outcome: StepName -> StepOutcome, message: string)
    requires outcome(SystemDeps) == Returned(Report(false, message))
    ensures RunSteps(Plan(true), outcome) ==
      RunSteps(Plan(true), s => if s == SystemDeps then Returned(Report(true, message)) else outcome(s))
  {
    RunDependsOnVerdicts(Plan(true), outcome,
      s => if s == SystemDeps then Returned(Report(true, message)) else outcome(s));
  }

  /** A successful run shows 5, 15, 25, 35, (45 on macOS,) 55, 90, 100; a
      failed one ends in 0 with the failing step's message. */
  lemma RunTrails(isMacos: bool, outcome: StepName -> StepOutcome)
    ensures FirstFailingStep(Plan(isMacos), outcome).None? ==>
      RunSteps(Plan(isMacos), outcome).trail ==
        if isMacos then [5, 15, 25, 35, 45, 55, 90, 100] else [5, 15, 25, 35, 55, 90, 100]
    ensures RunSteps(Plan(isMacos), outcome).failure.Some? <==> FirstFailingStep(Plan(isMacos), outcome).Some?
  {
    RunStopsAtFirstFailure(Plan(isMacos), outcome);
    PlanProgresses(isMacos);
  }

  lemma PlanProgresses(isMacos: bool)
    ensures Progresses(Plan(isMacos)) ==
      if isMacos then [5, 15, 25, 35, 45, 55, 90] else [5, 15, 25, 35, 55, 90]
  {
  }

  // ---------------------------------------------------------------------
  // Window flags

  /** `installation_running`, whether the worker thread is alive, and
      `installation_complete`. */
  datatype Gui = Gui(running: bool, threadAlive: bool, complete: bool)

  /** The flags right after the window is built. */
  const Initial := Gui(false, false, false)

  /** `start_installation`: refuses while a run is in progress; otherwise
      marks one as running and starts the worker. The flag says whether it
      started. */
  function StartInstallation(g: Gui): (r: (Gui, bool))
    ensures r.1 <==> !g.running && !g.threadAlive
    ensures !r.1 ==> r.0 == g
    ensures r.1 ==> r.0.running && r.0.threadAlive && r.0.complete == g.complete
  {
    if g.running || g.threadAlive then (g, false)
    else (Gui(true, true, g.complete), true)
  }

  /** `run_installation` on the worker thread, including the `finally` that
      clears the running flag. A failed run leaves `complete` as it was. */
  function RunInstallation(g: Gui, isMacos: bool, outcome: StepName -> StepOutcome): (r: (Gui, Run))
    ensures !r.0.running && !r.0.threadAlive
    ensures r.0.complete <==> g.complete || Succeeds(isMacos, outcome)
    ensures r.1 == RunSteps(Plan(isMacos), outcome)
  {
    var run := RunSteps(Plan(isMacos), outcome);
    RunTrails(isMacos, outcome);
    (Gui(false, false, g.complete || run.failure.None?), run)
  }

  datatype Launch = NotReady | LaunchMain

  /** `launch_app`: only after a completed installation. */
  function LaunchApp(g: Gui): (d: Launch)
    ensures d == NotReady <==> !g.complete
  {
    if g.complete then LaunchMain else NotReady
  }

  /** The flags after the operator starts the installation once per entry of
      `attempts` and each run finishes. */
  function AfterAttempts(g: Gui, isMacos: bool, attempts: seq<StepName -> StepOutcome>): Gui
    decreases |attempts|
  {
    if |attempts| == 0 then g
    else
      var (started, ok) := StartInstallation(g);
      var next := if ok then RunInstallation(started, isMacos, attempts[0]).0 else started;
      AfterAttempts(next, isMacos, attempts[1..])
  }

  /** A run that gets through every step. */
  predicate Succeeds(isMacos: bool, outcome: StepName -> StepOutcome) {
    FirstFailingStep(Plan(isMacos), outcome).None?
  }

  /** The flags after one start and the run it begins. */
  function AttemptOnce(g: Gui, isMacos: bool, outcome: StepName -> StepOutcome): (next: Gui)
    requires !g.running && !g.threadAlive
    ensures !next.running && !next.threadAlive
    ensures next.complete <==> g.complete || Succeeds(isMacos, outcome)
    ensures next == (var (started, ok) := StartInstallation(g);
                     if ok then RunInstallation(started, isMacos, outcome).0 else started)
  {
    RunInstallation(StartInstallation(g).0, isMacos, outcome).0
  }

  /** Once no run is in progress, every start is accepted, the running flag
      is down again once the runs finish, and the application can be
      launched exactly when it could before or at least one of the runs got
      through every step. */
  lemma {:induction false} LaunchOnlyAfterSuccessfulRun(g: Gui, isMacos: bool, attempts: seq<StepName -> StepOutcome>)
    requires !g.running && !g.threadAlive
    ensures !AfterAttempts(g, isMacos, attempts).running
    ensures LaunchApp(AfterAttempts(g, isMacos, attempts)) == LaunchMain <==>
      g.complete || exists k :: 0 <= k < |attempts| && Succeeds(isMacos, attempts[k])
    decreases |attempts|
  {
    if |attempts| > 0 {
      var next := AttemptOnce(g, isMacos, attempts[0]);
      assert AfterAttempts(g, isMacos, attempts) == AfterAttempts(next, isMacos, attempts[1..]);
      LaunchOnlyAfterSuccessfulRun(next, isMacos, attempts[1..]);
      SomeSucceedsSplit(isMacos, attempts);
    }
  }

  /** From the window as it is built, the application can be launched
      exactly when some run got through every step. */
  lemma FreshWindowLaunchesOnlyAfterSuccess(isMacos: bool, attempts: seq<StepName -> StepOutcome>)
    ensures LaunchApp(AfterAttempts(Initial, isMacos, attempts)) == LaunchMain <==>
      exists k :: 0 <= k < |attempts| && Succeeds(isMacos, attempts[k])
  {
    LaunchOnlyAfterSuccessfulRun(Initial, isMacos, attempts);
  }

  lemma SomeSucceedsSplit(isMacos: bool, attempts: seq<StepName -> StepOutcome>)
    requires |attempts| > 0
    ensures (exists k :: 0 <= k < |attempts| && Succeeds(isMacos, attempts[k])) <==>
      Succeeds(isMacos, attempts[0]) || exists k :: 0 <= k < |attempts[1..]| && Succeeds(isMacos, attempts[1..][k])
  {
    var rest := attempts[1..];
    if exists k :: 0 <= k < |attempts| && Succeeds(isMacos, attempts[k]) {
      var k :| 0 <= k < |attempts| && Succeeds(isMacos, attempts[k]);
      if k > 0 {
        assert Succeeds(isMacos, rest[k - 1]);
      }
    }
    if exists k :: 0 <= k < |rest| && Succeeds(isMacos, rest[k]) {
      var k :| 0 <= k < |rest| && Succeeds(isMacos, rest[k]);
      assert Succeeds(isMacos, attempts[k + 1]);
    }
  }

  /** A second start while a run is in progress changes nothing. */
  lemma StartWhileRunningIsIgnored(g: Gui)
    requires StartInstallation(g).1
    ensures StartInstallation(StartInstallation(g).0) == (StartInstallation(g).0, false)
  {
  }
}
