/**
 The command interpreter's process as the window drives it. Each operation is
 given as the state it leaves and the calls it makes on the process, in order.
 What the operating system does during a wait is a parameter: whether
 waitForStarted, waitForBytesWritten or waitForFinished returned true, and in
 which state the process was found afterwards.
 */
module Lifecycle {
  import opened Wire

  /** QProcess::state() */
  datatype ProcState = NotRunning | Starting | Running

  /** How the bounded wait after start("cmd.exe") ended. */
  datatype StartOutcome =
    | Started        // waitForStarted returned true
    | FailedToStart  // it returned false and the launch had failed
    | StillStarting  // it returned false while the launch was still pending

  /** One call the window makes on its QProcess. */
  datatype Op =
    | Start                           // start("cmd.exe")
    | WaitForStarted(ms: nat)
    | Write(chunk: Chunk)
    | WaitForBytesWritten(ms: nat)
    | Terminate
    | WaitForFinished(ms: nat)
    | Kill

  /** The state an operation leaves and the calls it made, oldest first. */
  datatype Step = Step(state: ProcState, ops: seq<Op>)

  const StartWaitMs: nat := 1000
  const InterruptFlushMs: nat := 1000
  const InterruptExitMs: nat := 1000
  const CloseExitMs: nat := 100
  const DestroyExitMs: nat := 1000
  /** The timeout Qt uses for waitForBytesWritten() and waitForFinished() called without one. */
  const QtDefaultWaitMs: nat := 30000

  function StateAfterStart(o: StartOutcome): (s: ProcState)
    ensures s == Running <==> o == Started
  {
    match o
    case Started => Running
    case FailedToStart => NotRunning
    case StillStarting => Starting
  }

  /** startCmdProcess: one launch attempt, and only from NotRunning. */
  function StartStep(s: ProcState, o: StartOutcome): (r: Step)
    ensures s != NotRunning ==> r == Step(s, [])
    ensures s == NotRunning ==> r.ops == [Start, WaitForStarted(StartWaitMs)]
    ensures (Start in r.ops) <==> s == NotRunning
    ensures r.state == Running <==> s == Running || (s == NotRunning && o == Started)
  {
    if s == NotRunning then Step(StateAfterStart(o), [Start, WaitForStarted(StartWaitMs)])
    else Step(s, [])
  }

  /**
   A wait on a process whose launch is still pending first waits for the
   launch; `launch` is how the launch ended by the time the wait returned.
   Any other state is left as it is.
   */
  function Settle(s: ProcState, launch: StartOutcome): ProcState
  {
    if s == Starting then StateAfterStart(launch) else s
  }

  /**
   onExecuteClicked, given the framed `line`: start the process if it is not
   running, then write the line and wait for it to be flushed. `settled` is
   how a launch still pending at the write ended during that wait.
   */
  function ExecuteStep(s: ProcState, line: string, o: StartOutcome, settled: StartOutcome): (r: Step)
    ensures |r.ops| >= 2
    ensures r.ops[|r.ops| - 2] == Write(Text(line))
    ensures r.ops[|r.ops| - 1] == WaitForBytesWritten(QtDefaultWaitMs)
    ensures forall i :: 0 <= i < |r.ops| - 2 ==> !r.ops[i].Write?
    ensures (Start in r.ops) <==> s == NotRunning
    ensures s == NotRunning ==> r.ops[0] == Start
    ensures s != NotRunning ==> r.ops == [Write(Text(line)), WaitForBytesWritten(QtDefaultWaitMs)]
    ensures var pending := s == Starting || (s == NotRunning && o == StillStarting);
      && (r.state == Running <==> s == Running || (s == NotRunning && o == Started) || (pending && settled == Started))
      && (r.state == NotRunning <==> (s == NotRunning && o == FailedToStart) || (pending && settled == FailedToStart))
  {
    var send := [Write(Text(line)), WaitForBytesWritten(QtDefaultWaitMs)];
    if s == NotRunning then
      var started := StartStep(s, o);
      assert started.ops + send == [Start, WaitForStarted(StartWaitMs)] + send;
      Step(Settle(started.state, settled), started.ops + send)
    else
      Step(Settle(s, settled), send)
  }

  /**
   The second half of onInterruptClicked, for a process still running after
   Ctrl+C: terminate, wait, kill on a timeout, and restart from whatever
   state that leaves. `finishedInTime` is what waitForFinished returned,
   `diedOnKill` whether the process is already gone when kill returns.
   */
  function ForceRestartStep(finishedInTime: bool, diedOnKill: bool, restart: StartOutcome): (r: Step)
    ensures |r.ops| >= 2 && r.ops[0] == Terminate && r.ops[1] == WaitForFinished(InterruptExitMs)
  {
    var terminated := [Terminate, WaitForFinished(InterruptExitMs)];
    var killed := if finishedInTime then terminated else terminated + [Kill];
    var restarted := StartStep(if finishedInTime || diedOnKill then NotRunning else Running, restart);
    Step(restarted.state, killed + restarted.ops)
  }

  /**
   onInterruptClicked, for a process that is `s` when the button is pressed:
   `stillRunning` is whether it is still running after the Ctrl+C byte was
   flushed (or the flush timed out); the rest is as in ForceRestartStep.
   */
  function InterruptStep(s: ProcState, flushed: bool, stillRunning: bool, finishedInTime: bool,
                         diedOnKill: bool, restart: StartOutcome): (r: Step)
    ensures s != Running ==> r == Step(s, [])
    ensures s == Running ==> |r.ops| >= 2 && r.ops[0] == Write(Raw(CtrlC)) && r.ops[1] == WaitForBytesWritten(InterruptFlushMs)
  {
    var signalled := [Write(Raw(CtrlC)), WaitForBytesWritten(InterruptFlushMs)];
    if s != Running then Step(s, [])
    else if !stillRunning then Step(NotRunning, signalled)
    else
      var forced := ForceRestartStep(finishedInTime, diedOnKill, restart);
      Step(forced.state, signalled + forced.ops)
  }

  /**
   When Ctrl+C does not end a Running interpreter: Ctrl+C first, then
   terminate, kill only on a timeout, and a restart only once the process is
   gone. If kill returns while the process is still reported Running, the
   restart is skipped and the killed process is what remains.
   */
  lemma InterruptEscalates(flushed: bool, finishedInTime: bool, diedOnKill: bool, restart: StartOutcome)
    ensures var r := InterruptStep(Running, flushed, true, finishedInTime, diedOnKill, restart);
      var signalled := [Write(Raw(CtrlC)), WaitForBytesWritten(InterruptFlushMs)];
      var terminated := signalled + [Terminate, WaitForFinished(InterruptExitMs)];
      && (finishedInTime ==>
            r == Step(StateAfterStart(restart), terminated + [Start, WaitForStarted(StartWaitMs)]))
      && (!finishedInTime && diedOnKill ==>
            r == Step(StateAfterStart(restart), terminated + [Kill, Start, WaitForStarted(StartWaitMs)]))
      && (!finishedInTime && !diedOnKill ==>
            r == Step(Running, terminated + [Kill]))
  {
    var signalled := [Write(Raw(CtrlC)), WaitForBytesWritten(InterruptFlushMs)];
    var terminated := [Terminate, WaitForFinished(InterruptExitMs)];
    if finishedInTime {
      assert signalled + (terminated + [Start, WaitForStarted(StartWaitMs)])
          == signalled + terminated + [Start, WaitForStarted(StartWaitMs)];
    } else if diedOnKill {
      assert signalled + (terminated + [Kill] + [Start, WaitForStarted(StartWaitMs)])
          == signalled + terminated + [Kill, Start, WaitForStarted(StartWaitMs)];
    } else {
      assert signalled + (terminated + [Kill] + []) == signalled + terminated + [Kill];
    }
  }

  /**
   terminate, wait up to `exitWaitMs`, and on a timeout kill and wait again
   with Qt's default timeout; `reaped` is what that second wait returned, and
   `launch` how a launch pending at the start ended during the waits.
   */
  function ShutdownStep(s: ProcState, exitWaitMs: nat, finishedInTime: bool, reaped: bool,
                        launch: StartOutcome): (r: Step)
    ensures |r.ops| >= 2 && r.ops[0] == Terminate && r.ops[1] == WaitForFinished(exitWaitMs)
    ensures finishedInTime ==> r.ops == [Terminate, WaitForFinished(exitWaitMs)]
    ensures (Kill in r.ops) <==> !finishedInTime
    ensures Kill in r.ops ==> r.ops[2..] == [Kill, WaitForFinished(QtDefaultWaitMs)]
    ensures Start !in r.ops
    ensures forall op :: op in r.ops ==> !op.Write?
    ensures r.state == NotRunning <==>
              finishedInTime || reaped || s == NotRunning || (s == Starting && launch == FailedToStart)
    ensures r.state == Running <==>
              !finishedInTime && !reaped && (s == Running || (s == Starting && launch == Started))
  {
    var terminated := [Terminate, WaitForFinished(exitWaitMs)];
    if finishedInTime then Step(NotRunning, terminated)
    else Step(if reaped then NotRunning else Settle(s, launch), terminated + [Kill, WaitForFinished(QtDefaultWaitMs)])
  }

  /** closeEvent: shuts down any process that is not NotRunning, with a 100 ms grace period. */
  function CloseStep(s: ProcState, finishedInTime: bool, reaped: bool, launch: StartOutcome): (r: Step)
    ensures s == NotRunning ==> r == Step(s, [])
    ensures s != NotRunning ==> |r.ops| >= 2 && r.ops[..2] == [Terminate, WaitForFinished(CloseExitMs)]
    ensures (Kill in r.ops) <==> s != NotRunning && !finishedInTime
    ensures Start !in r.ops
    ensures r.state == NotRunning <==>
              s == NotRunning || finishedInTime || reaped || (s == Starting && launch == FailedToStart)
    ensures r.state == Running ==> !finishedInTime && !reaped
  {
    if s != NotRunning then ShutdownStep(s, CloseExitMs, finishedInTime, reaped, launch) else Step(s, [])
  }

  /**
   ~MainWindow: shuts down only a Running process, with a 1000 ms grace
   period. A Running process has no pending launch, so ShutdownStep's launch
   outcome is never consulted here.
   */
  function DestroyStep(s: ProcState, finishedInTime: bool, reaped: bool): (r: Step)
    ensures s != Running ==> r == Step(s, [])
    ensures s == Running ==> |r.ops| >= 2 && r.ops[..2] == [Terminate, WaitForFinished(DestroyExitMs)]
    ensures (Kill in r.ops) <==> s == Running && !finishedInTime
    ensures Start !in r.ops
    ensures r.state == NotRunning <==> s == NotRunning || (s == Running && (finishedInTime || reaped))
  {
    if s == Running then ShutdownStep(s, DestroyExitMs, finishedInTime, reaped, Started) else Step(s, [])
  }

  /** Whether the Ctrl+C byte was flushed in time changes nothing that follows. */
  lemma InterruptIgnoresFlush(s: ProcState, stillRunning: bool, finishedInTime: bool,
                              diedOnKill: bool, restart: StartOutcome)
    ensures InterruptStep(s, true, stillRunning, finishedInTime, diedOnKill, restart)
         == InterruptStep(s, false, stillRunning, finishedInTime, diedOnKill, restart)
  {
  }

  /** If Ctrl+C ends the interpreter, no restart is attempted and none is running. */
  lemma InterruptCanLeaveNotRunning(flushed: bool, finishedInTime: bool, diedOnKill: bool, restart: StartOutcome)
    ensures InterruptStep(Running, flushed, false, finishedInTime, diedOnKill, restart) ==
            Step(NotRunning, [Write(Raw(CtrlC)), WaitForBytesWritten(InterruptFlushMs)])
  {
  }

  /** A process still Starting is shut down on close but left alone by the destructor. */
  lemma StartingGuardsDiffer(finishedInTime: bool, reaped: bool, launch: StartOutcome)
    ensures CloseStep(Starting, finishedInTime, reaped, launch).ops != []
    ensures DestroyStep(Starting, finishedInTime, reaped) == Step(Starting, [])
  {
  }

  /** A command typed while nothing runs launches the interpreter first, then sends the line. */
  lemma ExecuteFromNotRunning(text: string, o: StartOutcome, settled: StartOutcome)
    ensures ExecuteStep(NotRunning, Frame(text), o, settled).ops ==
            [Start, WaitForStarted(StartWaitMs), Write(Text(Frame(text))), WaitForBytesWritten(QtDefaultWaitMs)]
  {
  }

  /**
   A launch still pending after waitForStarted(1000) is settled by the write
   wait; once it has come up, a following interrupt finds it Running and
   sends Ctrl+C.
   */
  lemma PendingLaunchThenInterrupt(line: string, flushed: bool, stillRunning: bool, finishedInTime: bool,
                                   diedOnKill: bool, restart: StartOutcome)
    ensures var e := ExecuteStep(NotRunning, line, StillStarting, Started);
      && e.state == Running
      && InterruptStep(e.state, flushed, stillRunning, finishedInTime, diedOnKill, restart).ops[0] == Write(Raw(CtrlC))
  {
  }

  /**
   A Starting process whose launch succeeds while closing and that is not
   reaped is left Running, and the destructor then shuts it down again.
   */
  lemma CloseCanLeaveRunningForDestructor(finishedInTime: bool, reaped: bool)
    ensures var c := CloseStep(Starting, false, false, Started);
      && c.state == Running
      && DestroyStep(c.state, finishedInTime, reaped).ops[..2] == [Terminate, WaitForFinished(DestroyExitMs)]
  {
  }
}
