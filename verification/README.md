# iBackup-Tool core in Dafny

iBackup-Tool is a desktop application that reads information and an image from a connected iPhone. It can also start a full backup through the command-line backup tool. A companion launcher prepares a Python virtual environment for it. Nearly all of the real work is delegated:
- device calls go to pymobiledevice3;
- backups go to a child process;
- drawing goes to PIL;
- the windows are Qt or Tk.

This project models the parts the repository decides for itself, as pure functions over integers, strings and records. Every device call, child process and drawing call is an opaque parameter that either returns something or raises.

The modules:

- `DeviceFrame`: the geometry of `_create_device_frame` and its fall-back to the input bytes. Also the fixed geometry of the placeholder phone mock-up.
- `VisualSources`: the order in which `run_get_device_info` tries image sources. The nested loops are proved equal to "first successful attempt of one flat list", followed by the placeholder, followed by nothing.
- `BackupProgress`: the progress estimate `run_backup` keeps while reading the backup tool's output. The `(\d+)%` search is modelled as a leftmost-match regular-expression search.
- `DeviceText`: the property fall-backs, the backup-folder device-name sanitisation, the UDID shown in the info panel and the model caption.
- `LogStyle`: `update_log`'s classification of log lines, proved first-match-wins over an explicit rule table.
- `Tasks`: the command drop-down, `start_task`'s directory check, and the worker's dispatch.
- `Installer`: the launcher's `DependencyInstaller` helpers. These are the version gate, the download percentage, requirement names, venv paths, and the sequential install and import loops.
- `InstallFlow`: `run_installation` as a plan of steps with abort-on-failure and one warning-only step. Also the `installation_running` / `installation_complete` flags over any number of runs.
- `Text` and `Wrappers`: shared string helpers and `Option`.

Details of the code that the model keeps:
- A returned screenshot is used even when it has no bytes; the wallpaper, preview and icon sources must be non-empty.
- `_create_device_frame` pastes the image at `(20, 50)`, i.e. bezel plus 30. It does not paste at bezel plus the 60-px notch allowance.
- The placeholder's two status lines are fixed text, not a parameter.
- The placeholder's home indicator is 4 px tall, against 3 px in the frame.
- The launcher's installation logic is modelled as well.

## Model

| member | source | states |
|---|---|---|
| Text.RemoveAll | idevice_manager/main.py:1158 | `str.replace(pat, '')` with a non-empty pattern leaves a string without the pattern unchanged, removes at least one whole occurrence from a string that has one, and shortens the string by a whole number of pattern lengths |
| Text.RemoveAllLeftmost | idevice_manager/main.py:1158 | a string holding the pattern is cut at the pattern's first occurrence: the result is the text before that occurrence followed by the removal applied to the text after it, so removal goes left to right and does not rescan what it has passed |
| Text.NatToStringRoundTrip | idevice_manager/utils/launcher.py:338 | the decimal text used for the `i/n` counters reads back as the same number |
| DeviceFrame.Layout | idevice_manager/main.py:1399-1443 | the canvas is `W+40` by `H+100`. The image is pasted unscaled with 20-px side margins and 50 px above and below. The 60x8 notch spans y 25..33, is centred, and sits above the image. The 40x3 home indicator starts 28 px above the canvas bottom, is centred, lies below the image and inside the canvas |
| DeviceFrame.LayoutFitsCanvas | idevice_manager/main.py:1419-1443 | the pasted image always lies inside the canvas; the notch does exactly when the image is at least 20 px wide (`(fw-60)//2` is negative otherwise) |
| DeviceFrame.CreateDeviceFrame | idevice_manager/main.py:1392-1452 | the framed layout of the decoded size is returned when decoding and drawing succeed; otherwise, and only then, the input bytes come back unchanged |
| DeviceFrame.Placeholder | idevice_manager/main.py:1079-1176 | the placeholder has a 240x480 canvas and screen rectangle (20,50)-(220,470). Its notch is centred above the screen. Its 4-px indicator is on the screen. Four icon boxes sit on the screen, left to right, with centres at x = 50+35i |
| DeviceFrame.PlaceholderAgainstFrame | idevice_manager/main.py:1104-1132 | the placeholder's notch is the notch a 200-px image gets in the frame. Its canvas is 40 px shorter than that frame's. Its indicator is on the screen, where the frame's is below the image |
| DeviceFrame.PlaceholderCaptions | idevice_manager/main.py:1150-1162 | six captions stacked strictly downwards between the screen top and the icon row. They are the name, `iOS <version>`, the model with `iPhone` removed, and the two fixed status lines |
| VisualSources.FirstYield | idevice_manager/main.py:966-973 | a key loop that skips raising calls and empty data returns the first key whose call yields non-empty data, with every earlier key failing; none exactly when no key yields |
| VisualSources.FirstPageIconIsFirstSuccess | idevice_manager/main.py:1005-1023 | the nested page/entry loops over the icon state try exactly the bundle identifiers of list pages, in order, and keep the first icon that yields |
| VisualSources.SelectVisualIsFirstSuccess | idevice_manager/main.py:950-1188 | the visual chosen is the first successful attempt of home wallpaper, the three previews, the five common app icons, every icon-state app, then the screenshot. When all fail it is the placeholder, or nothing if drawing the placeholder fails |
| VisualSources.PlaceholderOnlyAfterEverySource | idevice_manager/main.py:1071-1188 | the placeholder is used if and only if every attempt failed and it can be drawn; no visual if and only if every attempt failed and it cannot |
| VisualSources.WallpaperFirst | idevice_manager/main.py:951-961 | a non-empty home-screen wallpaper wins over every other source |
| VisualSources.ScreenshotWithoutSpringBoard | idevice_manager/main.py:1051-1067 | without the SpringBoard service, a screenshot call that returns is used, even with empty data |
| VisualSources.ScreenshotField | idevice_manager/main.py:1029-1067 | `device_info['screenshot']` is absent exactly when no visual was found. A captured image always goes through `_create_device_frame`. The placeholder is the fixed mock-up |
| BackupProgress.SearchFrom | idevice_manager/main.py:1291 | the search returns the leftmost `\d+%` match, its digits maximal; nothing when no position matches |
| BackupProgress.Percent | idevice_manager/main.py:1287-1293 | a line yields a percentage if and only if it contains digits directly followed by `%`, and the value is that of the leftmost such match with all of its digits |
| BackupProgress.ScaleBounds | idevice_manager/main.py:1295 | the scaled estimate grows with the percentage and lies in 50..90 for 0..100 |
| BackupProgress.ScaleNotClamped | idevice_manager/main.py:1295 | a percentage above 100 is not clamped (200 gives 130) |
| BackupProgress.Step | idevice_manager/main.py:1286-1310 | one line emits the scaled percentage (if any, and if scaling it does not overflow) and then the new estimate. Keyword rules override it in order: "connecting" gives 55; "starting"/"began" gives 60; "copying"/"backing up" gives `min(q + 2, 85)`, where q is the scaled percentage or else the previous estimate; "finalizing"/"finishing" gives 88. Without a keyword the percentage decides. Without either, or when the percentage has so many digits that `int((percent / 100) * 40)` raises and the `except` swallows it, nothing changes |
| BackupProgress.TrackStaysInRange | idevice_manager/main.py:1286-1310 | from any estimate within 50..90, the estimate stays within 50..90 over any run of lines that report no percentage above 100 |
| BackupProgress.TrackFromStart | idevice_manager/main.py:1275-1310 | from the starting estimate of 50, the bar stays within 50..90 over any run of lines that report no percentage above 100 |
| BackupProgress.StepIgnoresCase | idevice_manager/main.py:1291-1308 | lower-casing a line does not change its effect |
| BackupProgress.LeftmostGreedyMatch | idevice_manager/main.py:1291-1293 | `12a34% done` reports 34: the `12` that is not followed by `%` is skipped |
| BackupProgress.CopyingCanLowerProgress | idevice_manager/main.py:1305-1306 | a "copying" line after 88 moves the bar back to 85 |
| DeviceText.ReadDeviceInfo | idevice_manager/main.py:902-908 | each field of `device_info` is the value lockdown gives for its key (`DeviceName`, `ProductVersion`, `SerialNumber`, `UniqueDeviceID`, `ProductType`, `BuildVersion`) when that value is present and non-empty, and otherwise its own fallback (`Unknown Device`, `Unknown Version`, `Unknown Serial`, `Unknown UDID`, `Unknown Model`, `Unknown Build`); so no field is empty |
| DeviceText.KeepNameChars | idevice_manager/main.py:1233 | the filter keeps only alphanumerics, space, `-` and `_`, and is the identity on such strings |
| DeviceText.KeepNameCharsAppend | idevice_manager/main.py:1233 | the filter works character by character: it distributes over concatenation, so the kept characters keep their order and multiplicity |
| DeviceText.KeepNameCharsSingle | idevice_manager/main.py:1233 | one character is kept exactly when it is alphanumeric, a space, `-` or `_` |
| DeviceText.KeepNameCharsContents | idevice_manager/main.py:1233 | a character is in the filtered name exactly when it is in the name and is a kept character |
| DeviceText.Strip | idevice_manager/main.py:1233 | `strip()` returns the slice between leading and trailing whitespace, whose ends are not whitespace, and leaves a string without such ends unchanged |
| DeviceText.Sanitize | idevice_manager/main.py:1233 | the sanitised name is the filtered name with surrounding whitespace stripped, so it holds only kept characters (no `/`, `\`, `.` or `:`) and no space at either end |
| DeviceText.SanitizeIdempotent | idevice_manager/main.py:1233 | sanitising twice is sanitising once |
| DeviceText.SanitizeKeepsCleanName | idevice_manager/main.py:1233 | a name of kept characters without end spaces is unchanged |
| DeviceText.BackupFolderName | idevice_manager/main.py:1232-1233 | a missing or empty name gives `Unknown_Device`; a present, non-empty name gives that name sanitised; the result is already sanitised |
| DeviceText.FolderNameCanBeEmpty | idevice_manager/main.py:1232-1233 | a non-empty name with no kept character (`!?`, say) leaves an empty folder-name part: the fallback applies only to a missing or empty name |
| DeviceText.UdidDisplay | idevice_manager/main.py:1648 | `N/A` exactly when the UDID is missing or empty; otherwise its first min(8, length) characters followed by `...` |
| DeviceText.UdidAlwaysShown | idevice_manager/main.py:1648 | with the worker's `device_info`, whose UDID has a fall-back, the panel never shows `N/A` |
| DeviceText.ModelCaption | idevice_manager/main.py:1158 | the caption equals the model when the model holds no `iPhone`; otherwise it is at least six characters shorter, by a whole multiple of six |
| DeviceText.ProductTypeCaption | idevice_manager/main.py:1158 | the product type `iPhone14,5` is captioned `14,5` |
| DeviceText.CaptionDoesNotRescan | idevice_manager/main.py:1158 | `iPiPhonehone` is captioned `iPhone`: the removal joins the halves into a new `iPhone` that is not removed |
| DeviceText.RemovalRejoins | idevice_manager/main.py:1158 | for any pattern whose first letter differs from its next two, removing it from `pat[..2] + pat + pat[2..]` gives `pat` back |
| LogStyle.ClassifyFollowsRules | idevice_manager/main.py:1668-1688 | the `if`/`elif` chain equals the first matching rule of the seven-rule table |
| LogStyle.ClassifyIsFirstMatchingRule | idevice_manager/main.py:1668-1688 | a line gets a rule's kind if and only if that rule matches and no earlier one does; plain information if and only if none matches |
| LogStyle.PrefixIsCaseSensitive | idevice_manager/main.py:1668-1671 | `[error]` in lower case is plain information |
| LogStyle.FormatLine | idevice_manager/main.py:1669-1691 | the appended line is exactly the kind's glyph, the time stamp, ` \| ` and the message: it starts with the head, ends with the message, and has their combined length |
| LogStyle.GlyphsDistinct | idevice_manager/main.py:1669-1687 | different kinds get different glyphs |
| Tasks.CommandFor | idevice_manager/main.py:1592-1596 | the command map has an entry exactly for the two drop-down items |
| Tasks.StartTask | idevice_manager/main.py:1591-1612 | unknown text raises; a backup with an empty directory field only warns. A started backup carries the non-empty directory, and device info carries none |
| Tasks.ControlsFor | idevice_manager/main.py:1582-1589 | the directory row is visible exactly when the choice is not "Get Device Info"; the button reads "Start Full Backup" then, and the choice otherwise |
| Tasks.Dispatch | idevice_manager/main.py:865-873 | `backup` runs the backup unless its directory is missing or empty; `device-info` reads the device |
| Tasks.WindowNeverStartsBackupWithoutDirectory | idevice_manager/main.py:1206-1212 | every drop-down item is in the command map, and a worker started from the window never reaches `run_backup`'s no-directory failure |
| Installer.CheckPythonVersion | idevice_manager/utils/launcher.py:213-218 | the report carries `Python X.Y.Z` on success and `Python 3.8+ required. Current: X.Y.Z` on failure; major 4+ passes, 2 or less fails |
| Installer.VersionGateIsLexicographic | idevice_manager/utils/launcher.py:216 | the gate accepts exactly `(major, minor) >= (3, 8)` in tuple order, equivalently `(major, minor, micro) >= (3, 8, 0)` |
| Installer.DownloadPercent | idevice_manager/utils/launcher.py:83-86 | the callback gets a percentage if and only if there is a callback and a positive total. It is at most 100, equal to 100 exactly when the bytes read reach the total, and otherwise the floor of bytes*100/total |
| Installer.DownloadPercentMonotone | idevice_manager/utils/launcher.py:85 | more blocks never lower the percentage |
| Installer.PackageName | idevice_manager/utils/launcher.py:336 | the name is the prefix of the requirement that ends at the first `>=`, or the whole requirement when it has none |
| Installer.PackageNameUnique | idevice_manager/utils/launcher.py:336 | that characterisation determines the name uniquely |
| Installer.RequirementNames | idevice_manager/utils/launcher.py:42-49 | the six pinned requirements name PyQt6, pymobiledevice3, Pillow, cryptography, requests and six. Only the first two are also the module imported for them |
| Installer.FirstFailure | idevice_manager/utils/launcher.py:335-353 | reference: the first item whose process does not exit with 0, every earlier one having done so; none exactly when all do |
| Installer.RunInOrder | idevice_manager/utils/launcher.py:335-353 | items are started in order, each announced with its 1-based number, and nothing after the first failure is started |
| Installer.FirstFailureIsTheStop | idevice_manager/utils/launcher.py:335-353 | any stopping point that meets the loop's contract (first failing item, or none exactly when all succeed) is the one the reference finds, so the loop and the reference agree |
| Installer.FailureOutcome | idevice_manager/utils/launcher.py:346-351 | a process that cannot start raises its own error out of the step; a non-zero exit is a false report whose message is exactly the prefix, the item, `: ` and the process's stderr |
| Installer.InstallPythonDependencies | idevice_manager/utils/launcher.py:316-353 | a failed pip upgrade is ignored unless pip cannot start. The step succeeds exactly when every requirement installs; otherwise it reports the first failing requirement. The log is `Upgrading pip...` and then `Installing <name> (i/n)...` for the requirements tried, which is all of them when every one installs |
| Installer.TestImports | idevice_manager/utils/launcher.py:355-378 | succeeds exactly when every module imports; otherwise reports the first failing module, after announcing only the modules tried. When every module imports, every module is announced |
| Installer.VenvLayout | idevice_manager/utils/launcher.py:262-281 | python, pythonw and pip share `venv/Scripts` on Windows and `venv/bin` elsewhere; only Windows has a separate windowed interpreter |
| Installer.EnsurePythonAvailable | idevice_manager/utils/launcher.py:192-211 | success if and only if an interpreter is available afterwards. An available interpreter is reported without any change. Elsewhere than Windows the step fails. A failed Windows install is reported with its message |
| Installer.EnsurePythonIdempotent | idevice_manager/utils/launcher.py:194-195 | once it has succeeded, asking again changes nothing |
| Installer.CheckPipAvailable | idevice_manager/utils/launcher.py:220-232 | pip counts as available exactly when `python -m pip --version` exits with 0; a missing interpreter is caught |
| Installer.CreateVirtualEnvironment | idevice_manager/utils/launcher.py:234-260 | an existing `venv` is reported without running anything. Otherwise success follows the exit code. A process that cannot start escapes |
| Installer.FirstSpawnFailure | idevice_manager/utils/launcher.py:304-312 | the first Homebrew package whose install cannot start, every earlier one having run |
| Installer.SystemDependenciesMacos | idevice_manager/utils/launcher.py:283-314 | off macOS it skips. It reports failure only when Homebrew is missing and its install exits non-zero. It raises exactly when a needed process cannot start |
| InstallFlow.Plan | idevice_manager/utils/launcher.py:598-659 | six steps (seven on macOS), with strictly increasing progress values inside 0..100; the macOS system-library step is the only warning-only one |
| InstallFlow.RunSteps | idevice_manager/utils/launcher.py:595-683 | a run's status bar ends at 100 when it succeeds and at 0 when it fails |
| InstallFlow.FirstFailingStep | idevice_manager/utils/launcher.py:604-666 | reference: the first step that raises or, when fatal, reports false |
| InstallFlow.RunStopsAtFirstFailure | idevice_manager/utils/launcher.py:595-687 | the bar shows every step up to the first failing one and then 0, with that step's message (`Unexpected error: ` for an exception); with no failure it shows every step and then 100 |
| InstallFlow.SystemDepsFailureIsOnlyAWarning | idevice_manager/utils/launcher.py:639-646 | on macOS a false report from the system-library step leaves the run exactly as if it had succeeded |
| InstallFlow.RunTrails | idevice_manager/utils/launcher.py:599-669 | a successful run shows 5, 15, 25, 35, 45 (macOS only), 55, 90, 100; a run fails exactly when some step fails |
| InstallFlow.StartInstallation | idevice_manager/utils/launcher.py:578-593 | a start is refused, changing nothing, while a run is marked running or its thread is alive; otherwise it marks a run as running |
| InstallFlow.RunInstallation | idevice_manager/utils/launcher.py:595-683 | the running flag is always cleared; `installation_complete` becomes true on success and is otherwise left as it was |
| InstallFlow.LaunchApp | idevice_manager/utils/launcher.py:702-707 | the application is launched only after a completed installation |
| InstallFlow.LaunchOnlyAfterSuccessfulRun | idevice_manager/utils/launcher.py:578-707 | over any sequence of starts from an idle window, each start is accepted and the running flag ends down. `launch_app`'s guard allows launching exactly when it allowed it before or some run got through every step |
| InstallFlow.FreshWindowLaunchesOnlyAfterSuccess | idevice_manager/utils/launcher.py:578-707 | from the window as it is built, `launch_app`'s guard allows launching exactly when some run got through every step |
| InstallFlow.StartWhileRunningIsIgnored | idevice_manager/utils/launcher.py:581-583 | a second start during a run changes nothing |

## Left out

- Character classes (`isalnum`, `isspace`, `lower`, `\d`) are modelled for ASCII only. Python also accepts non-ASCII letters and digits and lower-cases them.
- BackupProgress.Step: the scaling `50 + int((percent / 100) * 40)` is modelled with exact integer arithmetic rather than floating point. For very large percentages the double's rounding can give a different value, and the model does not follow it. The point where the double overflows and the `except: pass` skips the update is modelled, as `ScaleOverflow`. The 32-bit range of `progress_updated`, declared as `pyqtSignal(int)` at idevice_manager/main.py:855, is not modelled. From a percentage of 5368708995 upwards the scaled value exceeds 2147483647. The emit at main.py:1296 can then raise after main.py:1295 has already adopted the value, and the `except: pass` swallows it. The emit at main.py:1310 can raise too, unless a keyword has reset the value, and that raise goes to the handler at main.py:1358, which ends the backup. How PyQt converts an out-of-range integer is outside what the model can state, so in the model the value is always emitted.
- DeviceFrame.CreateDeviceFrame: pixels, colours, corner radii, fonts and PNG encoding are not modelled. A framed result is represented by its layout, and PIL's decoding and drawing are parameters.
- All pymobiledevice3 calls are opaque results that either raise or return bytes. This covers device selection, lockdown, pairing and SSL checks, SpringBoard, screenshot and Mobilebackup2. Subprocesses, `urllib`, `winreg` and Homebrew are likewise opaque results.
- The rest of `run_backup` is not modelled: the connection, the backup child process itself, folder creation and the size report. `_get_directory_size` and `_format_size` (floating-point logarithms) are left out too.
- Time stamps, `QThread`/`threading` scheduling and widget state are left out. Only the launcher's `installation_running`, thread-alive and `installation_complete` flags are kept.
- `console_installer`, `check_and_setup_python`, `install_python_windows`, `refresh_python_path`, `check_main_app_exists` and `launch_main_app` are not modelled. The results of the Python search and installation enter `EnsurePythonAvailable` as parameters. `LaunchApp` models only the `installation_complete` check that comes before the call to `launch_main_app`.
- Installer.CreateVirtualEnvironment: the text of the `CalledProcessError` is a parameter; its exact wording is not modelled.
- Installer.ProcessRun: a process that cannot start is modelled as `FileNotFoundError`; other `OSError`s are not distinguished.
- Log lines emitted along the way are mostly not modelled. The exceptions are the announcements of the install and import loops and the failure messages.
- DeviceFrame.PlaceholderCaptions: the `.get` fall-backs (`iOS Device`, `Unknown`) never apply, because the worker's `device_info` always holds those keys.
- The colour `update_log` computes for each kind is not modelled: the line is appended as plain text, so the colour never reaches the screen.
- `_on_device_info_ready` is modelled only for the UDID row. The other rows show the values as they are.
