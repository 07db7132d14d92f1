/**
 * Task definitions as the auto-edge generator consults them: each kind of
 * task declares its input and output ports. The registry itself maps a task
 * kind to its definition; only the `ExportToPowerBITask` entry is part of this
 * model, every other entry is supplied by the caller.
 */
module Registry {
  import opened Wrappers

  /** A port of a task: its name, value type, and the flags the editor reads. */
  datatype TaskParam = TaskParam(
    name: string,
    paramType: string,
    required: bool,
    hideHandle: bool,
    options: seq<SelectOption>)

  datatype SelectOption = SelectOption(caption: string, value: string)

  datatype TaskDefinition = TaskDefinition(
    taskType: string,
    title: string,
    isEntryPoint: bool,
    inputs: seq<TaskParam>,
    outputs: seq<TaskParam>,
    credits: nat)

  /** `TaskRegistry`: task kind to definition. */
  type TaskRegistry = map<string, TaskDefinition>

  /** `inputs.find(input => !input.hideHandle)`: the first input that shows a handle. */
  function FirstVisibleInput(ps: seq<TaskParam>): (r: Option<TaskParam>)
    ensures r.None? <==> forall i :: 0 <= i < |ps| ==> ps[i].hideHandle
    ensures r.Some? ==> exists i :: 0 <= i < |ps| && ps[i] == r.value && !r.value.hideHandle
                          && forall j :: 0 <= j < i ==> ps[j].hideHandle
  {
    if ps == [] then None
    else if !ps[0].hideHandle then Some(ps[0])
    else
      var r := FirstVisibleInput(ps[1..]);
      assert forall i :: 1 <= i < |ps| ==> ps[i] == ps[1..][i - 1];
      r
  }

  /** `outputs?.[0]`. */
  function FirstOutput(ps: seq<TaskParam>): (r: Option<TaskParam>)
    ensures r.None? <==> ps == []
    ensures r.Some? ==> r.value == ps[0]
  {
    if ps == [] then None else Some(ps[0])
  }

  function StringParam(name: string, required: bool): TaskParam {
    TaskParam(name, "STRING", required, false, [])
  }

  /** The "Visualize & Export" task (ExportToPowerBI.tsx:4-61). */
  const ExportToPowerBITask := TaskDefinition(
    "EXPORT_TO_POWERBI",
    "Visualize & Export",
    false,
    [ StringParam("Data", true),
      TaskParam("Chart Type", "SELECT", true, true,
        [ SelectOption("Bar Chart", "bar"), SelectOption("Line Chart", "line"),
          SelectOption("Pie Chart", "pie"), SelectOption("Scatter Plot", "scatter") ]) ],
    [ StringParam("Power BI CSV", false), StringParam("Template File", false),
      StringParam("Auto Download", false), StringParam("Visualization Config", false),
      StringParam("HTML Report", false), StringParam("Visualization Image", false),
      StringParam("Visualization Image URL", false) ],
    2)

  /** The names of a list of ports, in order. */
  function Names(ps: seq<TaskParam>): (r: seq<string>)
    ensures |r| == |ps|
    ensures forall i :: 0 <= i < |ps| ==> r[i] == ps[i].name
  {
    if ps == [] then [] else [ps[0].name] + Names(ps[1..])
  }

  /**
   * The export task is not an entry point; its inputs are "Data" and then the
   * handle-less "Chart Type", both required, so an auto-generated edge binds to
   * "Data"; the chart options are bar, line, pie and scatter; its first output
   * is "Power BI CSV" and it costs 2 credits.
   */
  lemma ExportToPowerBIPorts()
    ensures !ExportToPowerBITask.isEntryPoint
    ensures Names(ExportToPowerBITask.inputs) == ["Data", "Chart Type"]
    ensures forall i :: 0 <= i < |ExportToPowerBITask.inputs| ==> ExportToPowerBITask.inputs[i].required
    ensures FirstVisibleInput(ExportToPowerBITask.inputs) == Some(ExportToPowerBITask.inputs[0])
    ensures ExportToPowerBITask.inputs[1].hideHandle
    ensures |ExportToPowerBITask.outputs| == 7
    ensures FirstOutput(ExportToPowerBITask.outputs).Some?
    ensures FirstOutput(ExportToPowerBITask.outputs).value.name == "Power BI CSV"
    ensures ExportToPowerBITask.credits == 2
  {
  }

  /** The values a "Chart Type" select offers. */
  function OptionValues(os: seq<SelectOption>): (r: seq<string>)
    ensures |r| == |os|
    ensures forall i :: 0 <= i < |os| ==> r[i] == os[i].value
  {
    if os == [] then [] else [os[0].value] + OptionValues(os[1..])
  }

  lemma ExportToPowerBIChartOptions()
    ensures OptionValues(ExportToPowerBITask.inputs[1].options) == ["bar", "line", "pie", "scatter"]
  {
  }
}
