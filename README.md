# A terminal window around cmd.exe, modelled in Dafny

The program is a single Qt window (`MainWindow`). It launches `cmd.exe` as a
child process and writes each typed command to the child's standard input,
trimmed and followed by `"\r\n"`. The Interrupt button or Ctrl+C sends the byte
0x03. If the child is still running after that, the window terminates it,
kills it on a timeout and then tries to start a new one, which is skipped
while the killed child is still reported Running. The child's standard output and
standard error go into a read-only text area. After new standard output, the
text area keeps only its newest 1000 lines. On close and on destruction the
window shuts the child down.

The model has four modules:

- `Wire` (wire.dfy) covers what goes down the pipe. `Trim` is QString's
  `trimmed()`, with white space as `QChar::isSpace` defines it. `Frame` is
  the line sent for one submitted command. `Chunk` is one buffer handed to
  `write()`: text, or the raw Ctrl+C byte.
- `Transcript` (transcript.dfy) is the text area, modelled as its sequence of
  blocks (lines).
  - `Blocks` splits inserted text the way the text document does. A break is
    "\r\n", LF, CR, U+2029, U+FDD0 or U+FDD1.
  - `AppendPlainText` replaces an empty document and otherwise adds blocks
    after it.
  - `Split` and `Join` are QString's `split('\n')` and QStringList's
    `join('\n')`.
  - `KeepLast` is the trim expression of `readProcessOutput`. It is proved to
    keep exactly the newest blocks.
- `Lifecycle` (lifecycle.dfy) gives one pure function per process-driving
  operation. Each function returns the process state the operation leaves
  and the calls it made on `QProcess`, oldest first, as a list of `Op`
  values.
  - The OS outcomes the code looks at are parameters: what `waitForStarted`
    and `waitForFinished` returned, how a pending launch ended, whether the
    child was still running after Ctrl+C, and whether it was gone when
    `kill` returned.
  - The timeouts are the constants the code passes. Calls without a timeout
    use Qt's default of 30000 ms.
- `Window` (mainwindow.dfy) holds `class MainWindow`, whose fields are the
  process state, the document's blocks and the log of process calls. Each
  slot is a method that updates those fields step by step, as the C++ does.
  Each method's postcondition equates the new state with the matching
  `Lifecycle` or `Transcript` function. The lemmas beside those functions
  state what the source promises.

Five behaviours of the code are easy to misread; the model follows the code:

- `waitForBytesWritten()` in `onExecuteClicked` and the second
  `waitForFinished()` in `closeEvent` and `~MainWindow` are bounded waits.
  They use Qt's default of 30000 ms and can time out. After such a timeout a
  shutdown can leave the process not `NotRunning`.
- An interrupt does not always leave a running interpreter.
  - If Ctrl+C ends the child, nothing is restarted.
  - `kill()` is not followed by a wait. If the child is still reported
    Running when `kill` returns, `startCmdProcess` skips the restart.
- Standard error is never trimmed, so the 1000-line bound holds only right
  after standard output.
- A wait on a child whose launch is still pending (state Starting, after
  `waitForStarted(1000)` timed out) first waits for the launch to end. So
  the write wait in `onExecuteClicked` and the waits in `closeEvent` can
  leave the child Running or NotRunning, whatever they return. The outcome
  of the launch is a parameter of those operations.
- The destructor acts only on a Running child. A child still Starting is left
  to `QProcess`'s own destructor.

## Model

| member | source | states |
|---|---|---|
| Wire.Trim | mainwindow.cpp:71 | the trimmed command is empty exactly when the typed text is all white space, never starts or ends with white space, and is no longer than the text |
| Wire.TrimRemovesOnlyMargins | mainwindow.cpp:71 | the typed text is a blank prefix, then the trimmed command, then a blank suffix |
| Wire.TrimOfPadded | mainwindow.cpp:71 | any text without blank margins, padded on both sides with white space, trims back to exactly itself |
| Wire.TrimIdempotent | mainwindow.cpp:71 | trimming an already trimmed command changes nothing |
| Wire.Frame | mainwindow.cpp:71-86 | the line sent always ends in "\r\n", is a bare "\r\n" exactly when the input is blank, and has no blank margin before the terminator |
| Wire.FrameOfBlank | mainwindow.cpp:83-85 | empty or white-space-only input sends exactly "\r\n" |
| Wire.FrameOfCommand | mainwindow.cpp:77-80 | the command "dir" is sent as "dir\r\n" |
| Wire.FrameOfPaddedCommand | mainwindow.cpp:71-80 | "  echo hi\t" is sent as "echo hi\r\n" |
| Transcript.CrLfIsOneBreak | mainwindow.cpp:115 | "a\r\nb" becomes the two blocks "a" and "b": the line ending cmd.exe prints is a single break |
| Transcript.Blocks | mainwindow.cpp:115 | inserting text yields at least one block, none containing a line break, and text without breaks is a single block |
| Transcript.Join | mainwindow.cpp:121 | join('\n') starts with the first part and puts '\n' right after it when more parts follow; SplitJoin proves Split undoes it |
| Transcript.Split | mainwindow.cpp:121 | split('\n') yields at least one part, no part contains '\n', and joining the parts with '\n' gives back the text |
| Transcript.SplitJoin | mainwindow.cpp:121 | splitting at '\n' undoes joining with '\n' for parts without '\n' |
| Transcript.BlocksJoin | mainwindow.cpp:121 | setting the document to its own '\n'-joined text rebuilds the same blocks |
| Transcript.AppendPlainText | mainwindow.cpp:115 | the appended text's blocks end the document; an existing non-empty document is kept in front unchanged; an empty document is replaced |
| Transcript.KeepLast | mainwindow.cpp:118-122 | the split, mid and join round trip leaves exactly the newest n blocks of the document |
| Transcript.AppendOverBound | mainwindow.cpp:125-131 | appending to a document already at 1000 blocks leaves more than 1000 blocks, so standard error alone can exceed the bound |
| Lifecycle.StateAfterStart | mainwindow.cpp:62-65 | the launch ends Running exactly when waitForStarted succeeded |
| Lifecycle.StartStep | mainwindow.cpp:59-67 | start("cmd.exe") and one 1000 ms waitForStarted happen exactly when the state is NotRunning; otherwise nothing changes; a failed start leaves no retry |
| Lifecycle.ExecuteStep | mainwindow.cpp:69-89 | a start is attempted first exactly when the state is NotRunning, and otherwise the only calls are the write of the framed line and a wait with Qt's default 30000 ms, which are always the last two; nothing else is written; the process ends Running exactly when it was Running, started in time, or a pending launch came up during the write wait, and NotRunning exactly when the launch failed in either wait |
| Lifecycle.ExecuteFromNotRunning | mainwindow.cpp:73-86 | from NotRunning the calls are start, waitForStarted(1000), write of the framed line, waitForBytesWritten(30000) |
| Lifecycle.PendingLaunchThenInterrupt | mainwindow.cpp:73-95 | a launch still pending after waitForStarted that comes up during the write wait leaves the process Running, so a following interrupt sends Ctrl+C |
| Lifecycle.InterruptStep | mainwindow.cpp:91-108 | nothing happens unless the process is Running, and then the Ctrl+C byte and its 1000 ms flush wait come first; InterruptEscalates, InterruptCanLeaveNotRunning and InterruptIgnoresFlush give the rest for every outcome |
| Lifecycle.ForceRestartStep | mainwindow.cpp:100-106 | terminate and a 1000 ms wait come first; InterruptEscalates gives the kill and restart that follow for every outcome |
| Lifecycle.InterruptCanLeaveNotRunning | mainwindow.cpp:95-100 | if Ctrl+C ends the child, only the Ctrl+C byte and its 1000 ms flush wait happen, and the process is left NotRunning |
| Lifecycle.InterruptEscalates | mainwindow.cpp:95-106 | a child surviving Ctrl+C gets terminate and a 1000 ms wait; kill follows only on a timeout; a restart happens only if the child is gone, and otherwise the killed process stays Running |
| Lifecycle.InterruptIgnoresFlush | mainwindow.cpp:96-98 | whether the Ctrl+C flush wait succeeded changes nothing that follows |
| Lifecycle.ShutdownStep | mainwindow.cpp:51-55 | terminate and a bounded wait come first and are the only calls when that wait succeeds; kill and a 30000 ms wait follow exactly when it times out; nothing is written or started; the process ends NotRunning exactly when one of the waits succeeded, it was not running, or a pending launch failed, and Running exactly when both waits failed on a process that was Running or whose pending launch came up |
| Lifecycle.CloseStep | mainwindow.cpp:133-144 | closing acts on any process that is not NotRunning, with a 100 ms grace period, kills only on a timeout and never restarts; it ends NotRunning exactly when a wait succeeded or a pending launch failed, and leaves a Running process only when both waits failed |
| Lifecycle.CloseCanLeaveRunningForDestructor | mainwindow.cpp:136-141 | a Starting process whose launch comes up during the close and is not reaped is left Running, and the destructor then shuts it down again |
| Lifecycle.DestroyStep | mainwindow.cpp:48-57 | destruction acts only on a Running process, with a 1000 ms grace period, kills only on a timeout and never restarts |
| Lifecycle.StartingGuardsDiffer | mainwindow.cpp:50 | a Starting process is shut down on close but left alone by the destructor |
| Window.MainWindow.constructor | mainwindow.cpp:9-46 | the window starts with an empty text area and one launch attempt |
| Window.MainWindow.StartCmdProcess | mainwindow.cpp:59-67 | the new state and the calls made are those of StartStep |
| Window.MainWindow.OnExecuteClicked | mainwindow.cpp:69-89 | the new state and the calls made are those of ExecuteStep for the framed typed text, with a pending launch settled by the write wait |
| Window.MainWindow.OnInterruptClicked | mainwindow.cpp:91-108 | the new state and the calls made are those of InterruptStep |
| Window.MainWindow.ForceRestart | mainwindow.cpp:100-106 | terminate, kill on a timeout and restart, as ForceRestartStep describes |
| Window.MainWindow.ReadProcessOutput | mainwindow.cpp:110-123 | the document holds at most 1000 blocks and is a suffix of the appended document; nothing is removed when the appended document had at most 1000 blocks, and otherwise exactly the oldest are dropped |
| Window.MainWindow.ReadProcessError | mainwindow.cpp:125-131 | "Error: " and the decoded text are appended, and no block is removed |
| Window.MainWindow.TerminateOrKill | mainwindow.cpp:137-141 | the new state and the calls made are those of ShutdownStep, with a pending launch settled by the waits |
| Window.MainWindow.CloseEvent | mainwindow.cpp:133-144 | the new state and the calls made are those of CloseStep, including a Starting process whose launch ends during the waits |
| Window.MainWindow.Destroy | mainwindow.cpp:48-57 | the new state and the calls made are those of DestroyStep |

## Left out

- Widget creation, layout, signal and slot connections and the Ctrl+C shortcut (mainwindow.cpp:15-42) are left out. They are user-interface wiring; each slot is a method that the event loop calls.
- `lineEdit->clear()` and the placeholder text are left out, because the input box is not modelled. The typed text is a parameter of `OnExecuteClicked`.
- The IBM437 locale codec is an opaque function `codec` fixed when the window is built, because its table is not part of this model.
- The UTF-8 encoding of a command on its way to the pipe is not modelled. The wire is modelled at the character level.
- Real process I/O and timing are left out. `start`, the waits, `readAllStandardOutput` and `readAllStandardError` are replaced by the outcomes passed as parameters and the bytes passed to the read slots.
- Whether bytes written to a process that is not running reach anyone is left out. That is up to `QProcess`; the model records only that `write` was called.
- A child that exits on its own is not modelled, whether between two slots or during a wait whose result the slot ignores (the write wait in `onExecuteClicked`, `waitForStarted` in `startCmdProcess`). Qt handles such an exit inside the wait, so the slot can return with the process NotRunning where the model keeps it Running; the exit is not an operation of the window.
- `qDebug` logging is left out.
- `event->accept()` in `closeEvent` is left out.
- Cursor movement before each append is left out.
- The document's `blockCount` is the length of the block sequence.
- The replacement of non-breaking spaces and U+2028 that `toPlainText` performs is not modelled. The trim round trip assumes the blocks come back unchanged.
- `handleOutput` is declared in mainwindow.h but never defined.
- mainwindow.h only declares fields and slots and is not part of this model.
- Lifecycle.CloseStep: does not promise that the process always ends NotRunning, because the final `waitForFinished()` uses Qt's 30000 ms default and can time out.
- Lifecycle.DestroyStep: does not promise that the process always ends NotRunning, for the same reason.
