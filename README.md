# PTY proxy: a Dafny model

The PTY proxy (`pty-proxy.py`) is the helper the terminal bridge runs as its pseudo-terminal host.
It is started with the command to run as its arguments (optionally after a `--`). It forks that
command onto a new PTY. It then forwards in both directions over newline-delimited JSON:

- every non-empty read from the PTY goes to standard output as `{"type": "output", "data": <base64>}`;
- every `{"type": "input", "data": <base64>}` line on standard input is decoded and written to the PTY;
- a `{"type": "resize", "cols": N, "rows": N}` line with both dimensions in 1..65535 sets the PTY's window size.

When the loop ends, for whatever reason, the proxy waits for the child. It writes one
`{"type": "exit", "code": …, "signal": …}` line and closes the PTY.

This project models that control protocol as a state machine driven by its inputs, and proves
what it promises:

- the command-line check;
- one output message per non-empty PTY read, in read order and base64-exact;
- the PTY is handled before standard input, and a PTY end of file ends the loop before standard input is read;
- when a resize takes effect, and that it is packed as `(rows, cols, 0, 0)`;
- a line that is not JSON, or a message of unknown type, changes nothing;
- once the child has exited, exactly one exit message, always the last line, on the exception path too;
- what the exit message contains; `main` returns 0 whatever the child's code, unless an exception ended the loop.

Modules (one file each):

- `Wrappers`: `Option` and `Result`.
- `Base64`: the codec of section 4 of RFC 4648, with the round trip `Decode(Encode(b)) == Some(b)`, and proof that encoded text is ASCII.
- `Decimal`: `json.dumps`'s rendering of integers, and the base-10 part of Python's `int(str)`, with a round trip between them.
- `Json`: the parsed JSON value a line becomes, `dict.get`, and Python's `int(v or 0)` on such a value.
- `Wire`: `send`, i.e. `json.dumps(message) + "\n"`. Splitting standard output at newlines gives back one rendering per message.
- `ProxySpec`: the pure specification: argument parsing, one loop iteration (`Iterate`), the loop over a run of iterations (`Loop`), the exit report, and the lemmas.
- `PtyProxy`: the imperative model. The class `Proxy` holds the proxy's state. It has `Step` (one loop iteration), `Dispatch` (acting on a message) and `Finish` (the `finally` block), each proved against `ProxySpec`. The method `Run` is `main`.

The operating system is replaced by inputs. A loop iteration is a `Round`: which of the PTY and
standard input `select` reported readable, and what reading each returned (`Read(bytes)`, a
`ReadFailed` `OSError`, `Eof`, or a line already parsed as `NotJson` or `Parsed(value)`). The
child's status from `waitpid` is a `WaitStatus`: `Exited(code)`, `Signaled(signal)` or
`OtherStatus`. The effects are recorded as values: the messages written to standard output,
the byte strings handed to `os.write` on the PTY, and the last window size packed for
`TIOCSWINSZ`.

A JSON value that is not an object has no `get`. A resize dimension that `int()`
rejects raises. In both cases the exception leaves the loop, and after the `finally` block it
propagates out of `main`. The model follows the code: `Handle` ends the loop with `raised` set,
and `Run` reports `Raised`. A float resize value is truncated with `int()`, and so it is in
the model.

## Model

| member | source | states |
|---|---|---|
| `ProxySpec.ParseArgs` | pty-proxy.py:31-40 | fewer than two argv entries fail with a missing command; a lone `--` fails as missing after the separator; on success the command is non-empty and is `argv[1:]` with at most one leading `--` removed, so a second `--` stays as the command |
| `ProxySpec.ReadPty` | pty-proxy.py:56-63 | reading the PTY never writes to the PTY or changes the window size; if the loop goes on, exactly one message was added |
| `ProxySpec.Handle` | pty-proxy.py:74-89 | a parsed stdin message never writes to standard output, and either leaves the loop running or raises out of it |
| `ProxySpec.ReadStdin` | pty-proxy.py:65-72 | standard input never writes to standard output |
| `ProxySpec.PtyOutput` | pty-proxy.py:61-63 | a round's PTY read produces at most one message, an output message |
| `ProxySpec.Iterate` | pty-proxy.py:53-89 | one iteration appends to standard output exactly the output message of its PTY read (stdin adds none); a raised exception always ends the loop |
| `ProxySpec.Loop` | pty-proxy.py:52-89 | after any run of rounds, an exception that escaped means the loop is no longer running |
| `ProxySpec.ExitMessage` | pty-proxy.py:92-98 | the report is an exit message; `code` is set exactly for a normal exit and equals its status; `signal` is set exactly for a signalled child and equals its signal; never both |
| `ProxySpec.PtyEndComesFirst` | pty-proxy.py:54-62 | an empty PTY read or a PTY `OSError` ends the loop before that iteration's stdin line is read, with nothing sent |
| `ProxySpec.PtyDataIsSentFirst` | pty-proxy.py:56-66 | non-empty PTY bytes are sent as one output message before the stdin line of the same iteration is handled |
| `ProxySpec.StdinEofEnds` | pty-proxy.py:66-68 | end of file on standard input ends the loop and changes nothing else |
| `ProxySpec.NotJsonChangesNothing` | pty-proxy.py:69-72 | a line that is not JSON leaves every effect unchanged and the loop running |
| `ProxySpec.NonObjectRaises` | pty-proxy.py:74 | a JSON value that is not an object raises out of the loop and changes nothing else |
| `ProxySpec.UnknownTypeChangesNothing` | pty-proxy.py:74-89 | an object whose type is neither `input` nor `resize` changes nothing |
| `ProxySpec.InputEffect` | pty-proxy.py:75-81 | an input message writes the decoded `data` exactly when `data` is a string that decodes; a missing `data` writes an empty byte string; otherwise nothing changes |
| `ProxySpec.ResizeEffect` | pty-proxy.py:82-89 | a resize raises when a dimension's `int()` raises; otherwise it sets the window size to `(rows, cols, 0, 0)` exactly when both are in `1..65535`, and changes nothing else |
| `ProxySpec.ResizeKeepsRowsThenCols` | pty-proxy.py:20-22 | a resize to `rows` by `cols`, both in range, sets the window-size record `(rows, cols, 0, 0)`: rows first, columns second, pixel sizes zero |
| `ProxySpec.ZeroDimensionIsDropped` | pty-proxy.py:83-85 | a missing, null or zero dimension makes a resize a no-op, unless the other dimension raises |
| `ProxySpec.LoopAfterEnd` | pty-proxy.py:61-68 | once the loop has broken out or raised, further rounds change nothing |
| `ProxySpec.LoopOutbox` | pty-proxy.py:53-63 | everything the loop writes to standard output is one output message per non-empty PTY read, in read order, over exactly the rounds the loop ran |
| `ProxySpec.LoopSendsOnlyOutput` | pty-proxy.py:53-89 | the loop writes nothing but output messages |
| `ProxySpec.ExitIsLast` | pty-proxy.py:90-98 | after the `finally` block, standard output has exactly one exit message, and it is the last |
| `Base64.Char` | pty-proxy.py:63 | each 6-bit value maps to an ASCII alphabet character (never `=`) that decodes back to that value |
| `Base64.Encode` | pty-proxy.py:63 | the encoding of `n` bytes has `4 * ceil(n / 3)` characters, all ASCII alphabet characters or `=`, so `.decode("ascii")` cannot fail |
| `Base64.Decode` | pty-proxy.py:79 | decoding succeeds only on text whose length is a multiple of four |
| `Base64.DecodeEncode` | pty-proxy.py:63 | decoding the `data` of an output message gives back exactly the bytes that were read |
| `Decimal.ShowInt` | pty-proxy.py:98 | an integer is rendered as digits with a leading `-` exactly for negative numbers |
| `Decimal.ParseInt` | pty-proxy.py:83-84 | `int(str)` fails on a string without any digit |
| `Decimal.TooManyDigitsRaises` | pty-proxy.py:83-84 | a base-10 string of more than 4300 digits does not convert, as CPython's default digit limit makes `int()` raise |
| `Decimal.ParseShowInt` | pty-proxy.py:83-84 | `int()` of an integer's decimal rendering of at most 4300 digits gives back that integer |
| `Json.LongLiteralRaises` | pty-proxy.py:83-84 | a dimension given as a string of more than 4300 digits makes `int(v or 0)` raise, so a resize carrying it ends the loop |
| `Json.IntOrZero` | pty-proxy.py:83-84 | `int(v or 0)` raises exactly for an infinite or NaN float, a non-empty string that is not a base-10 literal of at most 4300 digits, a non-empty list or a non-empty object; falsy values become 0; ints stay as they are, `true` is 1, a finite float gives its truncation and a parsing string gives its value |
| `Wire.Number` | pty-proxy.py:98 | `json.dumps` of an optional code: `null` for None, otherwise the decimal text `ShowInt` gives (whose value `ParseShowInt` pins); never empty, no newline |
| `Wire.Render` | pty-proxy.py:25-27 | a rendered message holds no newline; an output message's `data` is the base64 text of its bytes; an exit message is exactly `{"type": "exit", "code": …, "signal": …}` with both fields rendered by `Number` |
| `Wire.Frame` | pty-proxy.py:25-27 | a sent line ends with its only newline |
| `Wire.LinesOfStdout` | pty-proxy.py:25-27 | splitting standard output at newlines gives back each message's rendering, one per line, in order |
| `PtyProxy.Proxy.constructor` | pty-proxy.py:52-53 | the loop starts running, with nothing sent, written or resized, and the PTY open |
| `PtyProxy.Proxy.Step` | pty-proxy.py:53-89 | one loop iteration changes the state exactly as `Iterate` says, and leaves the PTY open |
| `PtyProxy.Proxy.Dispatch` | pty-proxy.py:74-89 | acting on a parsed message changes the state exactly as `Handle` says |
| `PtyProxy.Proxy.Finish` | pty-proxy.py:90-102 | the `finally` block appends the exit message for the child's status, closes the PTY and changes nothing else |
| `PtyProxy.Run` | pty-proxy.py:30-104 | a bad command line returns 1 with nothing sent; otherwise the effects are those of `Loop` over the rounds; once the loop ends and the child has exited, exactly one exit message is sent and it is last, and `main` returns 0 whatever the child's code, or raises if an exception ended the loop |

## Left out

- Forking and `execvp` (lines 42-48): the child side runs in another process; the model starts at the parent's loop.
- `select`, `os.read`, `os.write`, `fcntl.ioctl`, `os.waitpid` and `os.close` are replaced by their results. A `Round` says what `select` reported and what each read returned. A `WaitStatus` is the classified status.
- `os.waitpid` (line 91) is assumed to return: the model takes the child's status as an input. The code does not signal the child. While it waits it neither reads nor closes the PTY. So a child that never exits, such as a shell still waiting for input after standard input ended, leaves the proxy blocked with no exit message sent. The exit message exists only once the child has exited.
- The bit-level wait status (`WIFEXITED`, `WEXITSTATUS`, `WTERMSIG`): these are platform macros, so the status is given already classified.
- `os.write` failures and partial writes: the return value of `os.write` is ignored by the code. `ptyWrites` records what is handed to `os.write`, not what the PTY accepted.
- `ioctl` failures: swallowed by the code. `winsize` is the last size packed, not the size the kernel holds.
- `os.close` failures: swallowed by the code. `Finish` marks the PTY closed either way.
- Readiness under Python's stdin buffering: a `Round` says a line is available. When several lines arrive at once, the code may not see the later ones until more input comes. That is not modelled.
- JSON parsing itself: a line is given already parsed. Exceptions other than `JSONDecodeError` from `json.loads` are not modelled, such as a `RecursionError` on deeply nested input. Neither are decoding errors raised by `readline`.
- Floats: a JSON float is represented only by what `int()` makes of it.
- Failures of `send` itself, such as a broken standard output pipe.
- The error texts written to standard error, and the unused `buffer` variable (line 50).
- `Base64.Decode`: it accepts only padded text in the standard alphabet. Python's default `b64decode` is more lenient: it discards characters outside the alphabet and stops at the first complete padding. For such payloads the source writes bytes to the PTY where the model writes none.
- `Decimal.ParseInt`: it strips only ASCII whitespace and reads only ASCII digits. Python's `int()` also accepts other Unicode whitespace and decimal digits.
- `Decimal.ParseInt`: the digit limit is fixed at CPython's default of 4300, with underscores not counted. Interpreters before that limit existed have none. `PYTHONINTMAXSTRDIGITS` and `sys.set_int_max_str_digits` can change it; neither is modelled.
- `Json.IntOrZero`: it inherits both `Decimal.ParseInt` gaps above, for resize dimensions given as strings.
- `Decimal.ShowInt`: `str()` of an int beyond the digit limit also raises in CPython. This is not modelled, because the exit code and signal it renders are small numbers.
