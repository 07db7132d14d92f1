/**
 * The execution environment an executor runs in (`ExecutionEnviornment`):
 * the inputs bound to the node, the outputs it publishes and the lines it
 * writes to its log. How inputs are resolved along edges is the run
 * controller's business; here they are a fixed map from input name to text.
 */
module Env {

  datatype Level = Info | Error

  /** One line of the node's log. */
  datatype LogLine = LogLine(level: Level, message: string)

  /** `getInput(name)`: the bound text, or the empty string when nothing is bound. */
  function InputOf(inputs: map<string, string>, name: string): (v: string)
    ensures name !in inputs ==> v == ""
    ensures name in inputs ==> v == inputs[name]
  {
    if name in inputs then inputs[name] else ""
  }

  /** What one run of the executor does: its verdict, the log lines it writes and the outputs it publishes. */
  datatype Outcome = Outcome(ok: bool, logs: seq<LogLine>, outputs: map<string, string>)

  /** A failure after `logs`: one more error line, nothing published. */
  function Failed(logs: seq<LogLine>, message: string): Outcome {
    Outcome(false, logs + [LogLine(Error, message)], map[])
  }

  /** The run `r`, after the lines `logs` were written. */
  function Following(logs: seq<LogLine>, r: Outcome): Outcome {
    Outcome(r.ok, logs + r.logs, r.outputs)
  }

  /** Lines written in two steps read as the first step's lines followed by the second's. */
  lemma Appended(before: seq<LogLine>, first: seq<LogLine>, second: seq<LogLine>)
    ensures before + first + second == before + (first + second)
  {
  }

  /** Two lines, a run of lines and two more lines, written one after another. */
  lemma FourAround(before: seq<LogLine>, a: LogLine, b: LogLine, middle: seq<LogLine>, c: LogLine, d: LogLine)
    ensures before + [a] + [b] + middle + [c] + [d] == before + ([a, b] + middle + [c, d])
  {
    assert [a] + [b] == [a, b];
    assert [a, b] + middle + [c] + [d] == [a, b] + middle + [c, d];
  }

  class Environment {
    const inputs: map<string, string>
    var outputs: map<string, string>
    var logs: seq<LogLine>

    constructor (inputs: map<string, string>)
      ensures this.inputs == inputs && outputs == map[] && logs == []
    {
      this.inputs := inputs;
      outputs := map[];
      logs := [];
    }

    function GetInput(name: string): string {
      InputOf(inputs, name)
    }

    /** `setOutput(name, value)`: publishes `value` under `name`, replacing an earlier one. */
    method SetOutput(name: string, value: string)
      modifies this`outputs
      ensures outputs == old(outputs)[name := value]
    {
      outputs := outputs[name := value];
    }

    /** `log.info(message)`. */
    method LogInfo(message: string)
      modifies this`logs
      ensures logs == old(logs) + [LogLine(Info, message)]
    {
      logs := logs + [LogLine(Info, message)];
    }

    /** `log.error(message)`. */
    method LogError(message: string)
      modifies this`logs
      ensures logs == old(logs) + [LogLine(Error, message)]
    {
      logs := logs + [LogLine(Error, message)];
    }
  }
}
