/** How the main window turns the operator's choice into a worker task:
    `BackupApp.start_task`, `BackupApp._on_command_changed`, and the
    dispatch in `TaskWorker.run` with the directory check that opens
    `run_backup`. */
module Tasks {
  import opened Wrappers

  datatype Command = DeviceInfoTask | BackupTask

  /** The entries of the command drop-down, in order. */
  const ComboItems: seq<string> := ["Get Device Info", "Create Full Backup"]

  /** `command_map[text]`; `None` where the dictionary lookup would raise. */
  function CommandFor(text: string): (c: Option<Command>)
    ensures c.Some? <==> text in ComboItems
  {
    if text == "Get Device Info" then Some(DeviceInfoTask)
    else if text == "Create Full Backup" then Some(BackupTask)
    else None
  }

  /** Outcome of pressing the action button. */
  datatype Start =
    | Launch(command: Command, backupDirectory: Option<string>)
    | AskForDirectory     // warning dialog, no worker started
    | UnknownChoice       // the command_map lookup raises

  /** `start_task`: a backup needs a non-empty directory field, and only a
      backup worker receives the directory. */
  function StartTask(choice: string, directoryField: string): (s: Start)
    ensures s.UnknownChoice? <==> choice !in ComboItems
    ensures s.AskForDirectory? <==> choice == "Create Full Backup" && directoryField == ""
    ensures s.Launch? && s.command == BackupTask ==> s.backupDirectory == Some(directoryField) && directoryField != ""
    ensures s.Launch? && s.command == DeviceInfoTask ==> s.backupDirectory.None?
    ensures s.Launch? ==> CommandFor(choice) == Some(s.command)
  {
    match CommandFor(choice)
    case None => UnknownChoice
    case Some(DeviceInfoTask) => Launch(DeviceInfoTask, None)
    case Some(BackupTask) =>
      if directoryField == "" then AskForDirectory else Launch(BackupTask, Some(directoryField))
  }

  /** Label of the action button and visibility of the directory row. */
  datatype Controls = Controls(buttonLabel: string, directoryVisible: bool)

  /** `_on_command_changed`: any choice but "Get Device Info" shows the
      directory row. */
  function ControlsFor(choice: string): (c: Controls)
    ensures c.directoryVisible <==> choice != "Get Device Info"
    ensures c.directoryVisible ==> c.buttonLabel == "Start Full Backup"
    ensures !c.directoryVisible ==> c.buttonLabel == choice
  {
    if choice == "Get Device Info" then Controls("Get Device Info", false)
    else Controls("Start Full Backup", true)
  }

  /** What the worker thread goes on to do. */
  datatype WorkerPath = GetDeviceInfo | RunBackup(directory: string) | NoDirectoryFailure

  /** `TaskWorker.run` and the first check of `run_backup`. */
  function Dispatch(command: Command, backupDirectory: Option<string>): (w: WorkerPath)
    ensures w.NoDirectoryFailure? <==> command == BackupTask && (backupDirectory.None? || backupDirectory.value == "")
    ensures w.RunBackup? ==> command == BackupTask && backupDirectory == Some(w.directory) && w.directory != ""
    ensures w.GetDeviceInfo? <==> command == DeviceInfoTask
  {
    match command
    case DeviceInfoTask => GetDeviceInfo
    case BackupTask =>
      if backupDirectory.None? || backupDirectory.value == "" then NoDirectoryFailure
      else RunBackup(backupDirectory.value)
  }

  /** Every drop-down entry is in the command map, and a worker started from
      the window never meets `run_backup`'s missing-directory failure: the
      window has already refused an empty field. */
  lemma WindowNeverStartsBackupWithoutDirectory(choice: string, directoryField: string)
    requires choice in ComboItems
    ensures !StartTask(choice, directoryField).UnknownChoice?
    ensures StartTask(choice, directoryField).Launch? ==>
      !Dispatch(StartTask(choice, directoryField).command, StartTask(choice, directoryField).backupDirectory).NoDirectoryFailure?
  {
  }
}
