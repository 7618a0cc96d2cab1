/**
 * What the PTY proxy does, as functions of its inputs: the command line check of `main`,
 * one iteration of its forwarding loop, the loop over a run of iterations, and the exit
 * report of its `finally` block.
 */
module ProxySpec {
  import opened Wrappers
  import opened Json
  import Base64
  import opened Wire

  // ----- Command line -----

  /** Why `main` returns 1 before starting anything. */
  datatype ArgError = MissingCommand | MissingAfterSeparator

  /**
   * The command to run: `argv[1:]` with one leading `--` removed. `argv[0]` is the
   * script's own name.
   */
  function ParseArgs(argv: seq<string>): (r: Result<seq<string>, ArgError>)
    ensures |argv| < 2 ==> r == Failure(MissingCommand)
    ensures |argv| == 2 && argv[1] == "--" ==> r == Failure(MissingAfterSeparator)
    ensures r.Failure? ==> |argv| < 2 || argv == [argv[0], "--"]
    ensures r.Success? ==> r.value != [] && (r.value == argv[1..] || (argv[1] == "--" && r.value == argv[2..]))
    ensures |argv| >= 2 && argv[1] != "--" ==> r == Success(argv[1..])
    ensures |argv| >= 3 && argv[1] == "--" ==> r == Success(argv[2..])
  {
    if |argv| < 2 then Failure(MissingCommand)
    else
      var cmd := if argv[1] == "--" then argv[2..] else argv[1..];
      if cmd == [] then Failure(MissingAfterSeparator) else Success(cmd)
  }

  // ----- The window size -----

  /** The `struct winsize` of the `TIOCSWINSZ` request: rows, columns, and two pixel sizes. */
  datatype Winsize = Winsize(row: int, col: int, xpixel: int, ypixel: int)

  const MAX_USHORT := 65535

  /**
   * `set_winsize(fd, rows, cols)`: packs `(rows, cols, 0, 0)` as four unsigned shorts.
   * None where `struct.pack` raises because a value does not fit.
   */
  function PackWinsize(rows: int, cols: int): (w: Option<Winsize>)
  {
    if 0 <= rows <= MAX_USHORT && 0 <= cols <= MAX_USHORT then Some(Winsize(rows, cols, 0, 0)) else None
  }

  // ----- One iteration of the loop -----

  /** What `os.read` on the PTY gave: some bytes (none at end of file), or an `OSError`. */
  datatype PtyRead = Read(data: seq<Base64.byte>) | ReadFailed

  /** What `sys.stdin.readline()` gave: end of file, or one line. */
  datatype StdinRead = Eof | Got(line: Line)

  /**
   * One iteration: which of the PTY and standard input `select` reported readable, and
   * what reading each of them returns.
   */
  datatype Round = Round(pty: Option<PtyRead>, stdin: Option<StdinRead>)

  /**
   * The effects of the loop so far: the messages written to standard output, the byte
   * strings written to the PTY, the last window size set, whether the loop is still
   * running and, once it is not, whether an exception ended it.
   */
  datatype LoopState = LoopState(
    outbox: seq<Msg>,
    ptyWrites: seq<seq<Base64.byte>>,
    winsize: Option<Winsize>,
    running: bool,
    raised: bool)

  const START := LoopState([], [], None, true, false)

  /** Reading the PTY: an empty read or an error ends the loop; anything else is sent as one output message. */
  function ReadPty(s: LoopState, r: PtyRead): (t: LoopState)
    ensures t.ptyWrites == s.ptyWrites && t.winsize == s.winsize && t.raised == s.raised
    ensures t.running ==> s.running && |t.outbox| == |s.outbox| + 1
  {
    var data := if r.Read? then r.data else [];
    if data == [] then s.(running := false) else s.(outbox := s.outbox + [Output(data)])
  }

  /** A message that escapes the loop as an exception. */
  function Raise(s: LoopState): (t: LoopState)
    ensures !t.running && t.raised
  {
    s.(running := false, raised := true)
  }

  /**
   * Acting on one parsed line. A value that is not an object has no `get`, and the
   * `AttributeError` ends the loop; so does an `int()` that raises on a resize dimension.
   */
  function Handle(s: LoopState, message: Json): (t: LoopState)
    ensures t.outbox == s.outbox
    ensures t.running == s.running || t == Raise(s)
  {
    if !message.JObject? then Raise(s)
    else
      var fields := message.fields;
      var kind := Get(fields, "type", JNull);
      if kind == JString("input") then
        var payload := Get(fields, "data", JString(""));
        if !payload.JString? then s
        else
          var bytes := Base64.Decode(payload.s);
          if bytes.None? then s else s.(ptyWrites := s.ptyWrites + [bytes.value])
      else if kind == JString("resize") then
        var cols := IntOrZero(Get(fields, "cols", JInt(0)));
        if cols.Raises? then Raise(s)
        else
          var rows := IntOrZero(Get(fields, "rows", JInt(0)));
          if rows.Raises? then Raise(s)
          else if cols.n > 0 && rows.n > 0 then
            var packed := PackWinsize(rows.n, cols.n);
            if packed.None? then s else s.(winsize := packed)
          else s
      else s
  }

  /** Reading standard input: end of file ends the loop; a line that is not JSON is skipped. */
  function ReadStdin(s: LoopState, r: StdinRead): (t: LoopState)
    ensures t.outbox == s.outbox
  {
    match r
    case Eof => s.(running := false)
    case Got(NotJson) => s
    case Got(Parsed(message)) => Handle(s, message)
  }

  /** The output message a round's PTY read produces, if any. */
  function PtyOutput(round: Round): (ms: seq<Msg>)
    ensures |ms| <= 1 && forall k | 0 <= k < |ms| :: ms[k].Output?
  {
    if round.pty.Some? && round.pty.value.Read? && round.pty.value.data != []
    then [Output(round.pty.value.data)] else []
  }

  /** One iteration: the PTY first, then, if the loop did not end there, standard input. */
  function Iterate(s: LoopState, round: Round): (t: LoopState)
    requires s.running && !s.raised
    ensures t.outbox == s.outbox + PtyOutput(round)
    ensures t.raised ==> !t.running
  {
    var afterPty := if round.pty.Some? then ReadPty(s, round.pty.value) else s;
    if !afterPty.running then afterPty
    else if round.stdin.Some? then ReadStdin(afterPty, round.stdin.value)
    else afterPty
  }

  // ----- The loop -----

  /** The state after the loop has run over a sequence of rounds; rounds after the loop ended change nothing. */
  function Loop(rounds: seq<Round>): (s: LoopState)
    ensures s.raised ==> !s.running
    decreases |rounds|
  {
    if rounds == [] then START
    else
      var before := Loop(rounds[..|rounds| - 1]);
      if before.running then Iterate(before, rounds[|rounds| - 1]) else before
  }

  /** How many of the rounds the loop iterated over. */
  function Ran(rounds: seq<Round>): (n: nat)
    ensures n <= |rounds|
    decreases |rounds|
  {
    if rounds == [] then 0
    else if Loop(rounds[..|rounds| - 1]).running then |rounds|
    else Ran(rounds[..|rounds| - 1])
  }

  /** The output messages of the PTY reads of some rounds, in order, ignoring standard input altogether. */
  function PtyOutputs(rounds: seq<Round>): seq<Msg>
    decreases |rounds|
  {
    if rounds == [] then [] else PtyOutputs(rounds[..|rounds| - 1]) + PtyOutput(rounds[|rounds| - 1])
  }

  // ----- Exit report -----

  /** The child's status as `os.waitpid` reports it. */
  datatype WaitStatus = Exited(status: int) | Signaled(signal: int) | OtherStatus

  /** The `exit` message of the `finally` block. */
  function ExitMessage(w: WaitStatus): (m: Msg)
    ensures m.Exit?
    ensures m.code.Some? <==> w.Exited?
    ensures m.signal.Some? <==> w.Signaled?
    ensures w.Exited? ==> m.code == Some(w.status)
    ensures w.Signaled? ==> m.signal == Some(w.signal)
    ensures m.code.None? || m.signal.None?
  {
    match w
    case Exited(status) => Exit(Some(status), None)
    case Signaled(signal) => Exit(None, Some(signal))
    case OtherStatus => Exit(None, None)
  }

  /** Every message is output except the last, which is the one exit message. */
  predicate EndsWithSingleExit(ms: seq<Msg>)
  {
    |ms| > 0 && ms[|ms| - 1].Exit? && forall k | 0 <= k < |ms| - 1 :: ms[k].Output?
  }

  // ----- Properties of one iteration -----

  /** An empty read or a read error on the PTY ends the loop before standard input is read. */
  lemma PtyEndComesFirst(s: LoopState, r: PtyRead, stdin: Option<StdinRead>)
    requires s.running && !s.raised
    requires r == ReadFailed || r == Read([])
    ensures Iterate(s, Round(Some(r), stdin)) == s.(running := false)
  {
  }

  /** Bytes read from the PTY are sent as exactly one output message, before standard input is handled. */
  lemma PtyDataIsSentFirst(s: LoopState, data: seq<Base64.byte>, stdin: Option<StdinRead>)
    requires s.running && !s.raised && data != []
    ensures var afterPty := s.(outbox := s.outbox + [Output(data)]);
      Iterate(s, Round(Some(Read(data)), stdin)) == if stdin.Some? then ReadStdin(afterPty, stdin.value) else afterPty
  {
  }

  /** End of file on standard input ends the loop and changes nothing else. */
  lemma StdinEofEnds(s: LoopState)
    ensures ReadStdin(s, Eof) == s.(running := false)
  {
  }

  /** A line that is not JSON leaves every effect as it was, and the loop goes on. */
  lemma NotJsonChangesNothing(s: LoopState)
    ensures ReadStdin(s, Got(NotJson)) == s
  {
  }

  /** A JSON value that is not an object raises out of the loop, and changes nothing else. */
  lemma NonObjectRaises(s: LoopState, message: Json)
    requires !message.JObject?
    ensures ReadStdin(s, Got(Parsed(message))) == s.(running := false, raised := true)
  {
  }

  /** An object whose type is neither `input` nor `resize` changes nothing. */
  lemma UnknownTypeChangesNothing(s: LoopState, fields: map<string, Json>)
    requires Get(fields, "type", JNull) != JString("input") && Get(fields, "type", JNull) != JString("resize")
    ensures Handle(s, JObject(fields)) == s
  {
  }

  /**
   * An `input` message writes its decoded `data` to the PTY, if `data` is a string that
   * decodes; a missing `data` counts as the empty string, and writes no bytes. Nothing else changes.
   */
  lemma InputEffect(s: LoopState, fields: map<string, Json>)
    requires Get(fields, "type", JNull) == JString("input")
    ensures var t := Handle(s, JObject(fields));
      var payload := Get(fields, "data", JString(""));
      && t.(ptyWrites := s.ptyWrites) == s
      && (payload.JString? && Base64.Decode(payload.s).Some? ==> t.ptyWrites == s.ptyWrites + [Base64.Decode(payload.s).value])
      && (!payload.JString? || Base64.Decode(payload.s).None? ==> t.ptyWrites == s.ptyWrites)
      && ("data" !in fields ==> t.ptyWrites == s.ptyWrites + [[]])
  {
  }

  /**
   * A `resize` message sets the window size to `(rows, cols, 0, 0)` exactly when both
   * dimensions convert to integers in `1..65535`; when a conversion raises, the loop ends.
   * Nothing else changes.
   */
  lemma ResizeEffect(s: LoopState, fields: map<string, Json>)
    requires Get(fields, "type", JNull) == JString("resize")
    ensures var t := Handle(s, JObject(fields));
      var cols := IntOrZero(Get(fields, "cols", JInt(0)));
      var rows := IntOrZero(Get(fields, "rows", JInt(0)));
      && (cols.Raises? || rows.Raises? ==> t == s.(running := false, raised := true))
      && (cols.Value? && rows.Value? ==>
            t == s.(winsize := if 0 < rows.n <= MAX_USHORT && 0 < cols.n <= MAX_USHORT
                               then Some(Winsize(rows.n, cols.n, 0, 0)) else s.winsize))
  {
  }

  /**
   * `set_winsize` receives the rows first and the columns second: a resize to `rows` by
   * `cols` sets exactly that record, with rows in the first field, not swapped.
   */
  lemma ResizeKeepsRowsThenCols(s: LoopState, fields: map<string, Json>, rows: int, cols: int)
    requires Get(fields, "type", JNull) == JString("resize")
    requires "rows" in fields && fields["rows"] == JInt(rows) && "cols" in fields && fields["cols"] == JInt(cols)
    requires 0 < rows <= MAX_USHORT && 0 < cols <= MAX_USHORT
    ensures Handle(s, JObject(fields)).winsize == Some(Winsize(rows, cols, 0, 0))
  {
  }

  /** A dimension that is missing, null or zero makes a resize a no-op, unless the other one raises. */
  lemma ZeroDimensionIsDropped(s: LoopState, fields: map<string, Json>, key: string)
    requires Get(fields, "type", JNull) == JString("resize")
    requires key == "cols" || key == "rows"
    requires key !in fields || fields[key] == JNull || fields[key] == JInt(0)
    requires IntOrZero(Get(fields, if key == "cols" then "rows" else "cols", JInt(0))).Value?
    ensures Handle(s, JObject(fields)) == s
  {
  }

  // ----- Properties of the loop -----

  /** Once the loop has ended, further rounds change nothing. */
  lemma {:induction false} LoopAfterEnd(rounds: seq<Round>, more: seq<Round>)
    requires !Loop(rounds).running
    ensures Loop(rounds + more) == Loop(rounds)
    decreases |more|
  {
    if more != [] {
      var all := rounds + more;
      assert all[..|all| - 1] == rounds + more[..|more| - 1];
      LoopAfterEnd(rounds, more[..|more| - 1]);
    } else {
      assert rounds + more == rounds;
    }
  }

  /** One more round, when the loop is still running, is one more iteration. */
  lemma LoopOneMore(rounds: seq<Round>, i: nat)
    requires i < |rounds| && Loop(rounds[..i]).running
    ensures Loop(rounds[..i + 1]) == Iterate(Loop(rounds[..i]), rounds[i])
  {
    assert rounds[..i + 1][..i] == rounds[..i];
  }

  /**
   * Standard output, up to the exit message, is exactly one output message per non-empty
   * PTY read, in read order, over the rounds the loop ran.
   */
  lemma {:induction false} LoopOutbox(rounds: seq<Round>)
    ensures Loop(rounds).outbox == PtyOutputs(rounds[..Ran(rounds)])
    decreases |rounds|
  {
    if rounds != [] {
      var before := rounds[..|rounds| - 1];
      LoopOutbox(before);
      if Loop(before).running {
        assert rounds[..Ran(rounds)] == rounds;
        if before != [] {
          assert Loop(before[..|before| - 1]).running;
        }
        assert before[..Ran(before)] == before;
      } else {
        assert rounds[..Ran(rounds)] == before[..Ran(before)];
      }
    }
  }

  /** Every message the loop sends is an output message. */
  lemma LoopSendsOnlyOutput(rounds: seq<Round>)
    ensures forall k | 0 <= k < |Loop(rounds).outbox| :: Loop(rounds).outbox[k].Output?
  {
    LoopOutbox(rounds);
    OnlyOutput(rounds[..Ran(rounds)]);
  }

  lemma {:induction false} OnlyOutput(rounds: seq<Round>)
    ensures forall k | 0 <= k < |PtyOutputs(rounds)| :: PtyOutputs(rounds)[k].Output?
    decreases |rounds|
  {
    if rounds != [] {
      OnlyOutput(rounds[..|rounds| - 1]);
    }
  }

  /** However the loop ended, the exit message is sent once, and last. */
  lemma ExitIsLast(rounds: seq<Round>, w: WaitStatus)
    ensures EndsWithSingleExit(Loop(rounds).outbox + [ExitMessage(w)])
  {
    LoopSendsOnlyOutput(rounds);
  }
}
