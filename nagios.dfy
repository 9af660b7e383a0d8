/** Running a Nagios plugin and reading its result (irisett/nagios.py): the
    exit-code convention of the Nagios plugin API, the latin-1 decoding of the
    plugin's output and the split of that output into a status text and
    performance data at the `|` separators. Spawning the process is outside
    the model: its outcome is an input. */
module Nagios {
  import opened Wrappers
  import opened PyText

  newtype Byte = b: int | 0 <= b < 256

  /** Plugin exit codes of the Nagios plugin API. */
  const STATUS_OK := 0
  const STATUS_WARNING := 1
  const STATUS_CRITICAL := 2
  const STATUS_UNKNOWN := 3

  /** Output handed to `parse_plugin_output`: raw bytes, or text already. */
  datatype Output = Bytes(data: seq<Byte>) | Text(s: string)

  /** Decoding bytes as latin-1: byte `b` is the character with code `b`. */
  function DecodeLatin1(data: seq<Byte>): (s: string)
    ensures |s| == |data|
    ensures forall i :: 0 <= i < |data| ==> s[i] as int == data[i] as int
  {
    if |data| == 0 then "" else [data[0] as int as char] + DecodeLatin1(data[1..])
  }

  /** Encoding as latin-1; `None` when a character is above U+00FF. */
  function EncodeLatin1(s: string): (r: Option<seq<Byte>>)
    ensures r.Some? <==> forall i :: 0 <= i < |s| ==> s[i] as int < 256
    ensures r.Some? ==> |r.value| == |s|
  {
    if |s| == 0 then Some([])
    else if s[0] as int >= 256 then None
    else
      match EncodeLatin1(s[1..])
      case None => None
      case Some(rest) => Some([s[0] as int as Byte] + rest)
  }

  /** Encoding a decoded byte string gives the bytes back. */
  lemma {:induction false} EncodeDecodeLatin1(data: seq<Byte>)
    ensures EncodeLatin1(DecodeLatin1(data)) == Some(data)
  {
    if |data| > 0 {
      EncodeDecodeLatin1(data[1..]);
      var s := DecodeLatin1(data);
      assert s[0] as int == data[0] as int;
      assert s[1..] == DecodeLatin1(data[1..]);
      assert [s[0] as int as Byte] + data[1..] == data;
    }
  }

  /** Decoding the encoding of a latin-1 string gives the string back. */
  lemma {:induction false} DecodeEncodeLatin1(s: string)
    requires EncodeLatin1(s).Some?
    ensures DecodeLatin1(EncodeLatin1(s).value) == s
  {
    if |s| > 0 {
      DecodeEncodeLatin1(s[1..]);
    }
  }

  /** `decode_plugin_output`: bytes are decoded as latin-1, which cannot fail
      (so the `except` branch returning '' is never taken); text passes
      through unchanged. */
  function DecodePluginOutput(output: Output): (s: string)
    ensures output.Text? ==> s == output.s
    ensures output.Bytes? ==>
      |s| == |output.data| && forall i :: 0 <= i < |s| ==> s[i] as int == output.data[i] as int
  {
    match output
    case Bytes(data) => DecodeLatin1(data)
    case Text(s) => s
  }

  /** The plugin's status text and its performance data items. */
  datatype Parsed = Parsed(text: string, perf: seq<string>)

  /** `parse_plugin_output`: the decoded output is split at its first `|`;
      the text before it is stripped, the rest is split at every `|`. */
  function ParsePluginOutput(output: Output): (r: Parsed)
    ensures var out := DecodePluginOutput(output);
      && ('|' !in out ==> r.perf == [] && r.text == Strip(out))
      && ('|' in out ==>
            var k := IndexOf(out, '|');
            && '|' !in out[..k]
            && r.text == Strip(out[..k])
            && |r.perf| >= 1
            && (forall i :: 0 <= i < |r.perf| ==> '|' !in r.perf[i])
            && out[..k] + "|" + Join(r.perf, "|") == out)
    ensures r.text == [] || (!IsSpace(r.text[0]) && !IsSpace(r.text[|r.text| - 1]))
  {
    var out := DecodePluginOutput(output);
    if '|' !in out then Parsed(Strip(out), [])
    else
      var k := IndexOf(out, '|');
      var perf := Split(out[k + 1..], '|');
      JoinSplit(out[k + 1..], '|');
      assert out[..k] + "|" + out[k + 1..] == out;
      Parsed(Strip(out[..k]), perf)
  }

  /** What the spawned plugin process did. */
  datatype Spawn =
    | NotFound                                             // FileNotFoundError on exec
    | Exited(code: int, stdout: seq<Byte>, stderr: seq<Byte>)

  /** The argument a `MonitorFailedError` carries: the raw output bytes, or
      the parsed status text. */
  datatype Message = Raw(data: seq<Byte>) | Str(s: string)

  /** The three ways `run_plugin` ends: returning `(text, perf)`, raising
      `MonitorFailedError`, or raising a plain `NagiosError`. */
  datatype PluginResult =
    | Success(text: string, perf: seq<string>)
    | MonitorFailed(msg: Message)
    | NagiosFailure(reason: string)

  /** `run_plugin` given the process outcome. `stdout` and `stderr` are
      concatenated before any use. The timeout argument of the source is
      never used, so it is not a parameter here. */
  function RunPlugin(spawn: Spawn): (r: PluginResult)
    ensures spawn.NotFound? <==> r.NagiosFailure?
    ensures r.NagiosFailure? ==> r.reason == "executable not found"
    ensures r.Success? <==> spawn.Exited? && spawn.code in {STATUS_OK, STATUS_WARNING}
    ensures spawn.Exited? && spawn.code !in {STATUS_OK, STATUS_WARNING, STATUS_CRITICAL} ==>
      r == MonitorFailed(Raw(spawn.stdout + spawn.stderr))
    ensures spawn.Exited? && spawn.code in {STATUS_CRITICAL, STATUS_OK, STATUS_WARNING} ==>
      var p := ParsePluginOutput(Bytes(spawn.stdout + spawn.stderr));
      r == if spawn.code == STATUS_CRITICAL then MonitorFailed(Str(p.text)) else Success(p.text, p.perf)
  {
    match spawn
    case NotFound => NagiosFailure("executable not found")
    case Exited(code, stdout, stderr) =>
      var data := stdout + stderr;
      if code !in {STATUS_OK, STATUS_WARNING, STATUS_CRITICAL} then MonitorFailed(Raw(data))
      else
        var p := ParsePluginOutput(Bytes(data));
        if code !in {STATUS_OK, STATUS_WARNING} then MonitorFailed(Str(p.text))
        else Success(p.text, p.perf)
  }

  /** Exit code 3 (UNKNOWN in the plugin API) is reported like any other
      failure, with the raw output. */
  lemma UnknownExitIsFailure(stdout: seq<Byte>, stderr: seq<Byte>)
    ensures RunPlugin(Exited(STATUS_UNKNOWN, stdout, stderr)) == MonitorFailed(Raw(stdout + stderr))
  {
  }
}
