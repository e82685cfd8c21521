/**
 The terminal window: it owns the command interpreter's process, forwards typed
 commands and Ctrl+C to it, and shows what it prints. Widgets, layout and the
 wiring of buttons, shortcut and process notifications to these methods are
 not modelled; each slot is a method that the event loop calls.
 */
module Window {
  import opened Wire
  import opened Transcript
  import opened Lifecycle

  class MainWindow {
    /** cmdProcess->state() */
    var state: ProcState
    /** The blocks of plainTextEdit's document. */
    var lines: seq<string>
    /** Every call made on cmdProcess, oldest first. */
    var ops: seq<Op>
    /** The locale codec (IBM437) that turns the process's bytes into text. */
    const codec: seq<byte> -> string

    ghost predicate Valid()
      reads this
    {
      WellFormed(lines)
    }

    /** Sets the codec, starts with an empty text area and launches the interpreter. */
    constructor (codec: seq<byte> -> string, o: StartOutcome)
      ensures Valid()
      ensures this.codec == codec
      ensures lines == EmptyDocument
      ensures state == StateAfterStart(o)
      ensures ops == [Start, WaitForStarted(StartWaitMs)]
    {
      this.codec := codec;
      state := NotRunning;
      lines := EmptyDocument;
      ops := [];
      new;
      StartCmdProcess(o);
    }

    /** Launches the interpreter unless a process is starting or running; a failed start is only logged. */
    method StartCmdProcess(o: StartOutcome)
      modifies this`state, this`ops
      ensures state == StartStep(old(state), o).state
      ensures ops == old(ops) + StartStep(old(state), o).ops
    {
      if state == NotRunning {
        ops := ops + [Start];
        state := Starting;
        ops := ops + [WaitForStarted(StartWaitMs)];
        state := StateAfterStart(o);
      }
    }

    /** Sends the typed line, trimmed and terminated by "\r\n", starting the interpreter first if needed. */
    method OnExecuteClicked(text: string, o: StartOutcome, settled: StartOutcome)
      modifies this`state, this`ops
      ensures state == ExecuteStep(old(state), Frame(text), o, settled).state
      ensures ops == old(ops) + ExecuteStep(old(state), Frame(text), o, settled).ops
    {
      var command := Trim(text);
      ghost var line := Frame(text);
      assert line == command + CRLF;
      ghost var spec := ExecuteStep(state, line, o, settled);
      if state == NotRunning {
        StartCmdProcess(o);
      }
      if command != [] {
        ops := ops + [Write(Text(command + CRLF)), WaitForBytesWritten(QtDefaultWaitMs)];
      } else {
        assert line == CRLF;
        ops := ops + [Write(Text(CRLF)), WaitForBytesWritten(QtDefaultWaitMs)];
      }
      // waitForBytesWritten first waits for a launch that is still pending
      if state == Starting {
        state := StateAfterStart(settled);
      }
      assert ops == old(ops) + spec.ops;
    }

    /**
     Sends Ctrl+C to a running interpreter; if it is still running afterwards,
     terminates it, kills it when it does not finish in time, and restarts it.
     */
    method OnInterruptClicked(flushed: bool, stillRunning: bool, finishedInTime: bool,
                              diedOnKill: bool, restart: StartOutcome)
      modifies this`state, this`ops
      ensures state == InterruptStep(old(state), flushed, stillRunning, finishedInTime, diedOnKill, restart).state
      ensures ops == old(ops) + InterruptStep(old(state), flushed, stillRunning, finishedInTime, diedOnKill, restart).ops
    {
      if state == Running {
        ops := ops + [Write(Raw(CtrlC)), WaitForBytesWritten(InterruptFlushMs)];
        // whether the byte was flushed in time is only logged
        if stillRunning {
          ForceRestart(finishedInTime, diedOnKill, restart);
        } else {
          state := NotRunning;
        }
      }
    }

    /** The part of OnInterruptClicked that runs when Ctrl+C did not end the process. */
    method ForceRestart(finishedInTime: bool, diedOnKill: bool, restart: StartOutcome)
      requires state == Running
      modifies this`state, this`ops
      ensures state == ForceRestartStep(finishedInTime, diedOnKill, restart).state
      ensures ops == old(ops) + ForceRestartStep(finishedInTime, diedOnKill, restart).ops
    {
      ops := ops + [Terminate, WaitForFinished(InterruptExitMs)];
      if finishedInTime {
        state := NotRunning;
      } else {
        ops := ops + [Kill];
        if diedOnKill {
          state := NotRunning;
        }
      }
      StartCmdProcess(restart);
    }

    /** Shows newly arrived standard output, then keeps only the newest MaxLines blocks. */
    method ReadProcessOutput(output: seq<byte>)
      requires Valid()
      modifies this`lines
      ensures Valid()
      ensures |lines| <= MaxLines
      ensures var appended := AppendPlainText(old(lines), codec(output));
              && |lines| == (if |appended| <= MaxLines then |appended| else MaxLines)
              && lines == appended[|appended| - |lines|..]
    {
      var outputStr := codec(output);
      lines := AppendPlainText(lines, outputStr);
      var count := |lines|;
      if count > MaxLines {
        lines := KeepLast(lines, MaxLines);
      }
    }

    /** Shows newly arrived standard error behind an "Error: " marker; nothing is removed. */
    method ReadProcessError(error: seq<byte>)
      requires Valid()
      modifies this`lines
      ensures Valid()
      ensures lines == AppendPlainText(old(lines), ErrorPrefix + codec(error))
      ensures |lines| >= |old(lines)|
    {
      var errorStr := codec(error);
      lines := AppendPlainText(lines, ErrorPrefix + errorStr);
    }

    /**
     Terminates the process, and kills it if it does not finish within
     `exitWaitMs`; a launch still pending is settled by the waits.
     */
    method TerminateOrKill(exitWaitMs: nat, finishedInTime: bool, reaped: bool, launch: StartOutcome)
      modifies this`state, this`ops
      ensures state == ShutdownStep(old(state), exitWaitMs, finishedInTime, reaped, launch).state
      ensures ops == old(ops) + ShutdownStep(old(state), exitWaitMs, finishedInTime, reaped, launch).ops
    {
      ops := ops + [Terminate, WaitForFinished(exitWaitMs)];
      if finishedInTime {
        state := NotRunning;
      } else {
        ops := ops + [Kill, WaitForFinished(QtDefaultWaitMs)];
        if reaped {
          state := NotRunning;
        } else if state == Starting {
          state := StateAfterStart(launch);
        }
      }
    }

    /** The window is closing: stop any process that is not NotRunning. */
    method CloseEvent(finishedInTime: bool, reaped: bool, launch: StartOutcome)
      modifies this`state, this`ops
      ensures state == CloseStep(old(state), finishedInTime, reaped, launch).state
      ensures ops == old(ops) + CloseStep(old(state), finishedInTime, reaped, launch).ops
    {
      if state != NotRunning {
        TerminateOrKill(CloseExitMs, finishedInTime, reaped, launch);
      }
    }

    /** The window is destroyed: stop the process if it is Running. */
    method Destroy(finishedInTime: bool, reaped: bool)
      modifies this`state, this`ops
      ensures state == DestroyStep(old(state), finishedInTime, reaped).state
      ensures ops == old(ops) + DestroyStep(old(state), finishedInTime, reaped).ops
    {
      if state == Running {
        // a Running process has no pending launch, so the outcome passed is never used
        TerminateOrKill(DestroyExitMs, finishedInTime, reaped, Started);
      }
    }
  }
}
