/**
 * The PTY proxy's `main`: the command line check, then the forwarding loop, then the
 * `finally` block that reports the child's exit. Forking, `select`, reading and writing
 * file descriptors and `waitpid` are replaced by their results, given as inputs.
 */
module PtyProxy {
  import opened Wrappers
  import opened Json
  import Base64
  import opened Wire
  import opened ProxySpec

  /** The proxy's state while it forwards between the PTY and its standard streams. */
  class Proxy {
    /** The messages written to standard output, in order. */
    var outbox: seq<Msg>
    /** The byte strings handed to `os.write` on the PTY, in order. */
    var ptyWrites: seq<seq<Base64.byte>>
    /** The last window size packed for `TIOCSWINSZ`; None while no resize has taken effect. */
    var winsize: Option<Winsize>
    /** The loop has neither broken out nor raised. */
    var running: bool
    /** An exception escaped the loop. */
    var raised: bool
    /** The PTY's file descriptor has not been closed yet. */
    var masterOpen: bool

    function State(): LoopState
      reads this
    {
      LoopState(outbox, ptyWrites, winsize, running, raised)
    }

    constructor ()
      ensures State() == START && masterOpen
    {
      outbox, ptyWrites, winsize := [], [], None;
      running, raised, masterOpen := true, false, true;
    }

    /** One iteration of the `while True` loop. */
    method Step(round: Round)
      requires running && !raised
      modifies this
      ensures State() == Iterate(old(State()), round)
      ensures masterOpen == old(masterOpen)
    {
      if round.pty.Some? {
        // an OSError reads as no data
        var data := if round.pty.value.Read? then round.pty.value.data else [];
        if data == [] {
          running := false;
          return;
        }
        outbox := outbox + [Output(data)];
      }
      if round.stdin.Some? {
        match round.stdin.value
        case Eof =>
          running := false;
        case Got(line) =>
          if line.Parsed? {
            Dispatch(line.value);
          }
      }
    }

    /** Acting on a line that parsed as JSON. */
    method Dispatch(message: Json)
      requires running && !raised
      modifies this
      ensures State() == Handle(old(State()), message)
      ensures masterOpen == old(masterOpen)
    {
      if !message.JObject? {
        running, raised := false, true;
        return;
      }
      var kind := Get(message.fields, "type", JNull);
      if kind == JString("input") {
        var payload := Get(message.fields, "data", JString(""));
        if payload.JString? {
          var bytes := Base64.Decode(payload.s);
          if bytes.Some? {
            ptyWrites := ptyWrites + [bytes.value];
          }
        }
      } else if kind == JString("resize") {
        var cols := IntOrZero(Get(message.fields, "cols", JInt(0)));
        if cols.Raises? {
          running, raised := false, true;
          return;
        }
        var rows := IntOrZero(Get(message.fields, "rows", JInt(0)));
        if rows.Raises? {
          running, raised := false, true;
          return;
        }
        if cols.n > 0 && rows.n > 0 {
          var packed := PackWinsize(rows.n, cols.n);
          if packed.Some? {
            winsize := packed;
          }
        }
      }
    }

    /** The `finally` block: report the child's exit, then close the PTY. */
    method Finish(status: WaitStatus)
      requires !running && masterOpen
      modifies this
      ensures outbox == old(outbox) + [ExitMessage(status)]
      ensures ptyWrites == old(ptyWrites) && winsize == old(winsize)
      ensures running == old(running) && raised == old(raised)
      ensures !masterOpen
    {
      outbox := outbox + [ExitMessage(status)];
      masterOpen := false;
    }
  }

  /**
   * How `main` ends: it returns a code, or the exception that ended the loop propagates
   * after the `finally` block, or the given rounds ran out while the loop still runs.
   */
  datatype Outcome = Returned(code: int) | Raised | StillRunning

  /**
   * `main`, given the command line, the rounds of the loop in order and the status
   * `waitpid` reports. Returns how it ends and the effects it had: the messages on standard
   * output, the writes to the PTY and the last window size set.
   */
  method Run(argv: seq<string>, rounds: seq<Round>, status: WaitStatus)
    returns (outcome: Outcome, sent: seq<Msg>, writes: seq<seq<Base64.byte>>, size: Option<Winsize>)
    ensures ParseArgs(argv).Failure? ==> outcome == Returned(1) && sent == [] && writes == [] && size == None
    ensures ParseArgs(argv).Success? ==>
      var loop := Loop(rounds);
      && writes == loop.ptyWrites && size == loop.winsize
      && (loop.running ==> outcome == StillRunning && sent == loop.outbox)
      && (!loop.running ==> sent == loop.outbox + [ExitMessage(status)]
                            && outcome == if loop.raised then Raised else Returned(0))
    ensures ParseArgs(argv).Success? && outcome != StillRunning ==> EndsWithSingleExit(sent)
    ensures outcome.Returned? ==> outcome.code == if ParseArgs(argv).Success? then 0 else 1
  {
    var command := ParseArgs(argv);
    if command.Failure? {
      return Returned(1), [], [], None;
    }
    var proxy := new Proxy();
    var i := 0;
    while i < |rounds| && proxy.running
      invariant 0 <= i <= |rounds|
      invariant proxy.State() == Loop(rounds[..i])
      invariant proxy.masterOpen
    {
      LoopOneMore(rounds, i);
      proxy.Step(rounds[i]);
      i := i + 1;
    }
    if i < |rounds| {
      LoopAfterEnd(rounds[..i], rounds[i..]);
      assert rounds[..i] + rounds[i..] == rounds;
    } else {
      assert rounds[..i] == rounds;
    }
    if proxy.running {
      outcome := StillRunning;
    } else {
      ExitIsLast(rounds, status);
      proxy.Finish(status);
      outcome := if proxy.raised then Raised else Returned(0);
    }
    sent, writes, size := proxy.outbox, proxy.ptyWrites, proxy.winsize;
  }
}
