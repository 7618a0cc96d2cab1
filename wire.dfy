/**
 * The proxy's standard output: every message is written as `json.dumps(message)` and a
 * newline, so the reader on the other side recovers exactly one message per line.
 */
module Wire {
  import opened Wrappers
  import Base64
  import Decimal

  /**
   * A message to standard output. `Output` holds the bytes of one PTY read; on the wire its
   * `data` field is their base64 text. `Exit` reports the child's exit code or signal.
   */
  datatype Msg = Output(chunk: seq<Base64.byte>) | Exit(code: Option<int>, signal: Option<int>)

  /** `json.dumps` of an optional int: `null` for None. */
  function Number(n: Option<int>): (s: string)
    ensures '\n' !in s && |s| > 0
    ensures n.None? ==> s == "null"
    ensures n.Some? ==> s == Decimal.ShowInt(n.value)
  {
    if n.None? then "null" else Decimal.ShowInt(n.value)
  }

  /**
   * `json.dumps` of the message dict, with its default `", "` and `": "` separators and the
   * keys in insertion order. The base64 text needs no escaping: it holds only `A-Z a-z 0-9 + / =`.
   */
  function Render(m: Msg): (s: string)
    ensures '\n' !in s
    ensures m.Output? ==> s == "{\"type\": \"output\", \"data\": \"" + Base64.Encode(m.chunk) + "\"}"
    ensures m.Exit? ==>
      s == "{\"type\": \"exit\", \"code\": " + Number(m.code) + ", \"signal\": " + Number(m.signal) + "}"
  {
    match m
    case Output(chunk) =>
      var data := Base64.Encode(chunk);
      assert '\n' !in data by {
        assert forall k | 0 <= k < |data| :: Base64.IsEncodedChar(data[k]);
      }
      "{\"type\": \"output\", \"data\": \"" + data + "\"}"
    case Exit(code, signal) =>
      "{\"type\": \"exit\", \"code\": " + Number(code) + ", \"signal\": " + Number(signal) + "}"
  }

  /** The line `send` writes for one message. */
  function Frame(m: Msg): (line: string)
    ensures |line| > 0 && line[|line| - 1] == '\n' && '\n' !in line[..|line| - 1]
  {
    var line := Render(m) + "\n";
    assert line[..|line| - 1] == Render(m);
    line
  }

  /** Everything written to standard output for a sequence of messages, in order. */
  function Stdout(ms: seq<Msg>): string
    decreases |ms|
  {
    if ms == [] then "" else Frame(ms[0]) + Stdout(ms[1..])
  }

  /** The complete lines of a text, each without its newline; an unterminated tail is not a line yet. */
  function Lines(s: string): seq<string>
  {
    LinesAfter("", s)
  }

  function LinesAfter(pending: string, s: string): seq<string>
    decreases |s|
  {
    if s == [] then []
    else if s[0] == '\n' then [pending] + LinesAfter("", s[1..])
    else LinesAfter(pending + [s[0]], s[1..])
  }

  lemma {:induction false} LineThenRest(pending: string, a: string, rest: string)
    requires '\n' !in a
    ensures LinesAfter(pending, a + "\n" + rest) == [pending + a] + LinesAfter("", rest)
    decreases |a|
  {
    var s := a + "\n" + rest;
    if a == [] {
      assert s == "\n" + rest && s[1..] == rest;
      assert pending + a == pending;
    } else {
      assert s[0] == a[0] && s[1..] == a[1..] + "\n" + rest;
      LineThenRest(pending + [a[0]], a[1..], rest);
      assert pending + [a[0]] + a[1..] == pending + a;
    }
  }

  /** Splitting standard output at newlines gives back each message's rendering, in order. */
  lemma {:induction false} LinesOfStdout(ms: seq<Msg>)
    ensures |Lines(Stdout(ms))| == |ms|
    ensures forall k | 0 <= k < |ms| :: Lines(Stdout(ms))[k] == Render(ms[k])
    decreases |ms|
  {
    if ms != [] {
      LinesOfStdout(ms[1..]);
      assert Frame(ms[0]) == Render(ms[0]) + "\n";
      LineThenRest("", Render(ms[0]), Stdout(ms[1..]));
      assert Stdout(ms) == Render(ms[0]) + "\n" + Stdout(ms[1..]);
      assert "" + Render(ms[0]) == Render(ms[0]);
    }
  }
}
