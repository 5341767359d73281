/**
  The background import jobs of `risks/tasks.py` and the state changes they
  make to a risk analysis.

  What the model cannot see is passed in: the outcome of the management
  command a job runs (`Command`: the analysis fields the command leaves in the
  database and the message of the exception it raised, if any), the outcome
  of the lookup of the analysis by name (`Lookup`), and the hazard sets the
  metadata job finds. A job returns the rows it wrote through the lifecycle
  setters and `save`, the analysis row it leaves stored, and the message of
  the `ValueError` it raises, if any.
 */
module Tasks {
  import opened Base
  import opened Lifecycle

  /** The fields of a risk analysis the jobs write, besides its state. */
  datatype Files = Files(
    descriptorFile: Option<string>,
    dataFile: Option<string>,
    metadataFile: Option<string>,
    hazardSet: Option<nat>)

  type AnalysisRow = Row<Files>

  /** `RiskAnalysis.objects.get(name=...)`. */
  datatype Lookup = Found(row: AnalysisRow) | NotFound(message: string)

  /**
    A `call_command(...)` run: `effect` is what the command leaves in the
    analysis' non-state fields; `failure` is the message of its exception.
   */
  datatype Command = Command(effect: Files, failure: Option<string>)

  /** How the atomic `save()` of `_create_risk_analysis` ends. */
  datatype SaveOutcome = Saved | IntegrityFailure | SaveFailed(message: string)

  datatype JobRun = JobRun(stored: Option<AnalysisRow>, writes: seq<AnalysisRow>, raised: Option<string>)

  /** The prefix of every message a job raises. */
  const InvalidInput := "Sorry, the input file is not valid: "

  /** The command's writes reach the stored row, not the in-memory copy. */
  function RunCommand(s: Session<Files>, c: Command): (r: Session<Files>)
    ensures r.obj.stored == Row(s.obj.stored.state, c.effect)
    ensures r.obj.local == s.obj.local && r.writes == s.writes
  {
    Session(Instance(Row(s.obj.stored.state, c.effect), s.obj.local), s.writes)
  }

  function Finish(s: Session<Files>, raised: Option<string>): JobRun
  {
    JobRun(Some(s.obj.stored), s.writes, raised)
  }

  function Raise(message: string): Option<string>
  {
    Some(InvalidInput + message)
  }

  /**
    `_import_risk_data`. On success the analysis is processing, then saved
    with its data file, then ready. On failure the in-memory copy read before
    the command is saved back, so the command's changes are overwritten, and
    the analysis ends in error.
   */
  function ImportRiskDataJob(lookup: Lookup, cmd: Command, finalName: string): (r: JobRun)
    ensures lookup.NotFound? ==> r == JobRun(None, [], Some(InvalidInput + lookup.message))
    ensures lookup.Found? && cmd.failure.None? ==>
      var done := cmd.effect.(dataFile := Some(finalName));
      r.raised.None? &&
      r.writes == [Row(Processing, lookup.row.fields), Row(Processing, done), Row(Ready, done)] &&
      r.stored == Some(Row(Ready, done))
    ensures lookup.Found? && cmd.failure.Some? ==>
      var before := lookup.row.fields;
      r.raised == Some(InvalidInput + cmd.failure.value) &&
      r.writes == [Row(Processing, before), Row(Processing, before), Row(Error, before)] &&
      r.stored == Some(Row(Error, before))
  {
    match lookup
    case NotFound(m) => JobRun(None, [], Raise(m))
    case Found(row) =>
      var ran := RunCommand(SetProcessing(Load(row)), cmd);
      match cmd.failure
      case None =>
        var reread := RefreshFromDb(ran);
        var saved := Save(WithFields(reread, reread.obj.local.fields.(dataFile := Some(finalName))));
        Finish(SetReady(saved), None)
      case Some(m) =>
        Finish(SetError(Save(ran)), Raise(m))
  }

  /** `if len(hazardsets) > 0: risk.hazardset = hazardsets[0]`. */
  function PickHazardSet(current: Option<nat>, hazardSets: seq<nat>): (r: Option<nat>)
    ensures |hazardSets| == 0 ==> r == current
    ensures |hazardSets| > 0 ==> r == Some(hazardSets[0])
  {
    if |hazardSets| > 0 then Some(hazardSets[0]) else current
  }

  /**
    `_import_risk_metadata`. On success the metadata file and the first hazard
    set found are saved and the analysis is ready. On failure there is no
    stale save: the command's changes stay and the analysis ends in error.
   */
  function ImportRiskMetadataJob(lookup: Lookup, cmd: Command, finalName: string, hazardSets: seq<nat>): (r: JobRun)
    ensures lookup.NotFound? ==> r == JobRun(None, [], Some(InvalidInput + lookup.message))
    ensures lookup.Found? && cmd.failure.None? ==>
      var done := cmd.effect.(metadataFile := Some(finalName),
                              hazardSet := PickHazardSet(cmd.effect.hazardSet, hazardSets));
      r.raised.None? &&
      r.writes == [Row(Processing, lookup.row.fields), Row(Processing, done), Row(Ready, done)] &&
      r.stored == Some(Row(Ready, done))
    ensures lookup.Found? && cmd.failure.Some? ==>
      r.raised == Some(InvalidInput + cmd.failure.value) &&
      r.writes == [Row(Processing, lookup.row.fields), Row(Error, cmd.effect)] &&
      r.stored == Some(Row(Error, cmd.effect))
  {
    match lookup
    case NotFound(m) => JobRun(None, [], Raise(m))
    case Found(row) =>
      var ran := RunCommand(SetProcessing(Load(row)), cmd);
      match cmd.failure
      case None =>
        var reread := RefreshFromDb(ran);
        var f := reread.obj.local.fields;
        var edited := f.(metadataFile := Some(finalName), hazardSet := PickHazardSet(f.hazardSet, hazardSets));
        Finish(SetReady(Save(WithFields(reread, edited))), None)
      case Some(m) =>
        Finish(SetError(ran), Raise(m))
  }

  /**
    `_create_risk_analysis`. The command creates the analysis; it is then
    looked up by the name the command printed and its descriptor file saved
    inside a transaction. An integrity error is swallowed with nothing
    written; any other failure after the lookup puts the analysis in error.
   */
  function CreateRiskAnalysisJob(failure: Option<string>, lookup: Lookup, save: SaveOutcome, fileIni: string): (r: JobRun)
    ensures failure.Some? ==> r == JobRun(None, [], Some(InvalidInput + failure.value))
    ensures failure.None? && lookup.NotFound? ==> r == JobRun(None, [], Some(InvalidInput + lookup.message))
    ensures failure.None? && lookup.Found? ==>
      var row := lookup.row;
      match save
      case Saved =>
        r.raised.None? && r.writes == [row.(fields := row.fields.(descriptorFile := Some(fileIni)))] &&
        r.stored == Some(r.writes[0])
      case IntegrityFailure =>
        r == JobRun(Some(row), [], None)
      case SaveFailed(m) =>
        r.raised == Some(InvalidInput + m) && r.writes == [Row(Error, row.fields)] &&
        r.stored == Some(Row(Error, row.fields))
  {
    if failure.Some? then JobRun(None, [], Raise(failure.value))
    else match lookup
      case NotFound(m) => JobRun(None, [], Raise(m))
      case Found(row) =>
        var edited := WithFields(Load(row), row.fields.(descriptorFile := Some(fileIni)));
        match save
        case Saved => Finish(Save(edited), None)
        case IntegrityFailure => Finish(Load(row), None)
        case SaveFailed(m) => Finish(SetError(edited), Raise(m))
  }

  /**
    `import_risk_data` followed by the worker's `_import_risk_data`: the
    caller's instance is queued, then the worker finds the queued row by name
    unless `lookupFailure` says the lookup raised.
   */
  function ImportRiskData(s: Session<Files>, lookupFailure: Option<string>, cmd: Command, finalName: string): (r: JobRun)
    ensures |r.writes| > |s.writes| && r.writes[..|s.writes|] == s.writes
    ensures r.writes[|s.writes|] == Row(Queued, s.obj.stored.fields)
  {
    var queued := SetQueued(s);
    var lookup := if lookupFailure.Some? then NotFound(lookupFailure.value) else Found(queued.obj.stored);
    var job := ImportRiskDataJob(lookup, cmd, finalName);
    JobRun(if job.stored.Some? then job.stored else Some(queued.obj.stored), queued.writes + job.writes, job.raised)
  }

  /** `import_risk_metadata` followed by `_import_risk_metadata`. */
  function ImportRiskMetadata(s: Session<Files>, lookupFailure: Option<string>, cmd: Command, finalName: string, hazardSets: seq<nat>): (r: JobRun)
    ensures |r.writes| > |s.writes| && r.writes[..|s.writes|] == s.writes
    ensures r.writes[|s.writes|] == Row(Queued, s.obj.stored.fields)
  {
    var queued := SetQueued(s);
    var lookup := if lookupFailure.Some? then NotFound(lookupFailure.value) else Found(queued.obj.stored);
    var job := ImportRiskMetadataJob(lookup, cmd, finalName, hazardSets);
    JobRun(if job.stored.Some? then job.stored else Some(queued.obj.stored), queued.writes + job.writes, job.raised)
  }

  /**
    `_import_event_data` and `_import_event_attributes`: no lifecycle
    change; a failing command is re-raised with the common prefix.
   */
  function EventImportJob(failure: Option<string>): (r: Option<string>)
    ensures r.None? <==> failure.None?
    ensures failure.Some? ==> r.value == InvalidInput + failure.value
  {
    if failure.Some? then Raise(failure.value) else None
  }

  /**
    The lifecycle an import drives, from whatever state the analysis was in:
    queued, processing, and then ready exactly when no error is raised and
    error exactly when one is; ready is never written on the failure path.
   */
  lemma ImportRiskDataLifecycle(s: Session<Files>, cmd: Command, finalName: string)
    ensures var r := ImportRiskData(s, None, cmd, finalName);
      var trace := States(r.writes[|s.writes|..]);
      trace == [Queued, Processing, Processing, if cmd.failure.None? then Ready else Error] &&
      (r.raised.None? <==> r.stored.value.state == Ready) &&
      (r.raised.Some? <==> r.stored.value.state == Error) &&
      (r.raised.Some? ==> Ready !in trace)
  {
    var r := ImportRiskData(s, None, cmd, finalName);
    var queued := SetQueued(s);
    var job := ImportRiskDataJob(Found(queued.obj.stored), cmd, finalName);
    ImportRiskDataRun(s, cmd, finalName);
    if cmd.failure.None? {
      QueuedThen(s.writes, queued.obj.stored, job, r, [Processing, Processing, Ready]);
    } else {
      QueuedThen(s.writes, queued.obj.stored, job, r, [Processing, Processing, Error]);
    }
  }

  /** A found analysis: the queued row is written, then the job runs; a job always stores a row. */
  lemma ImportRiskDataRun(s: Session<Files>, cmd: Command, finalName: string)
    ensures var queued := SetQueued(s);
      var job := ImportRiskDataJob(Found(queued.obj.stored), cmd, finalName);
      ImportRiskData(s, None, cmd, finalName) == JobRun(job.stored, s.writes + [queued.obj.stored] + job.writes, job.raised)
  {
  }

  lemma ImportRiskMetadataRun(s: Session<Files>, cmd: Command, finalName: string, hazardSets: seq<nat>)
    ensures var queued := SetQueued(s);
      var job := ImportRiskMetadataJob(Found(queued.obj.stored), cmd, finalName, hazardSets);
      ImportRiskMetadata(s, None, cmd, finalName, hazardSets) ==
        JobRun(job.stored, s.writes + [queued.obj.stored] + job.writes, job.raised)
  {
  }

  /** The states a queued job run writes after the rows written before it. */
  lemma QueuedThen(pre: seq<AnalysisRow>, q: AnalysisRow, job: JobRun, r: JobRun, trace: seq<State>)
    requires q.state == Queued
    requires States(job.writes) == trace
    requires r == JobRun(job.stored, pre + [q] + job.writes, job.raised)
    ensures States(r.writes[|pre|..]) == [Queued] + trace
  {
    assert r.writes[|pre|..] == [q] + job.writes;
  }

  /** The same lifecycle for the metadata import, which writes once less on failure. */
  lemma ImportRiskMetadataLifecycle(s: Session<Files>, cmd: Command, finalName: string, hazardSets: seq<nat>)
    ensures var r := ImportRiskMetadata(s, None, cmd, finalName, hazardSets);
      var trace := States(r.writes[|s.writes|..]);
      trace == (if cmd.failure.None? then [Queued, Processing, Processing, Ready] else [Queued, Processing, Error]) &&
      (r.raised.None? <==> r.stored.value.state == Ready) &&
      (r.raised.Some? ==> Ready !in trace)
  {
    var r := ImportRiskMetadata(s, None, cmd, finalName, hazardSets);
    var queued := SetQueued(s);
    var job := ImportRiskMetadataJob(Found(queued.obj.stored), cmd, finalName, hazardSets);
    ImportRiskMetadataRun(s, cmd, finalName, hazardSets);
    if cmd.failure.None? {
      QueuedThen(s.writes, queued.obj.stored, job, r, [Processing, Processing, Ready]);
    } else {
      QueuedThen(s.writes, queued.obj.stored, job, r, [Processing, Error]);
    }
  }

  /**
    A successful data import stores the final file name before it marks the
    analysis ready: every write in the ready state carries it.
   */
  lemma DataFileBeforeReady(lookup: Lookup, cmd: Command, finalName: string)
    ensures var r := ImportRiskDataJob(lookup, cmd, finalName);
      forall i :: 0 <= i < |r.writes| && r.writes[i].state == Ready ==>
        i > 0 && r.writes[i - 1].fields.dataFile == Some(finalName) && r.writes[i].fields.dataFile == Some(finalName)
  {
  }

  /**
    If the command fails, the data import leaves the analysis fields as they
    were read before the command, while the metadata import keeps what the
    command wrote.
   */
  lemma FailureKeepsFields(row: AnalysisRow, cmd: Command, finalName: string, hazardSets: seq<nat>)
    requires cmd.failure.Some?
    ensures ImportRiskDataJob(Found(row), cmd, finalName).stored.value.fields == row.fields
    ensures ImportRiskMetadataJob(Found(row), cmd, finalName, hazardSets).stored.value.fields == cmd.effect
  {
  }
}
