/** How request payloads become stored records and how these are shown back, and the execution
    path that turns an engine's output into a stored result. Generated ids, timestamps and the
    hash of an agent name are parameters. */
module Submissions {
  import opened Basics
  import Base64
  import Hex
  import IdText
  import Json

  datatype ApiError = EmptyDescription | EmptyAgent | InvalidBase64 | EngineFailed(message: string)

  datatype TaskSubmission = TaskSubmission(requesterId: string, description: string, inputBase64: string,
                                           maxBudget: nat, deadline: u64)
  datatype StoredTask = StoredTask(id: string, requester: seq<byte>, description: string, input: seq<byte>,
                                   maxBudget: nat, deadline: u64, completed: bool)
  datatype TaskView = TaskView(id: string, requesterId: string, description: string, completed: bool,
                               deadline: u64, maxBudget: nat)
  datatype ResultSubmission = ResultSubmission(taskId: string, agentId: string, outputBase64: string)
  datatype StoredResult = StoredResult(id: string, taskId: string, agentId: string, executor: seq<byte>,
                                       output: seq<byte>)
  datatype ResultView = ResultView(id: string, taskId: string, agentId: string, outputBase64: string)

  /** Nothing is left after trimming. */
  predicate Blank(s: string) {
    forall i :: 0 <= i < |s| ==> IdText.IsWhitespace(s[i])
  }

  function TaskFrom(s: TaskSubmission, id: string, hash: string -> seq<byte>): Result<StoredTask, ApiError> {
    if Blank(s.description) then Err(EmptyDescription)
    else
      match Base64.Decode(s.inputBase64)
      case None => Err(InvalidBase64)
      case Some(input) =>
        Ok(StoredTask(id, hash(s.requesterId), s.description, input, s.maxBudget, s.deadline, false))
  }

  function ViewTask(t: StoredTask): TaskView {
    TaskView(t.id, Hex.Encode(t.requester), t.description, t.completed, t.deadline, t.maxBudget)
  }

  function ResultFrom(s: ResultSubmission, task: StoredTask, id: string, hash: string -> seq<byte>)
    : Result<StoredResult, ApiError>
  {
    if Blank(s.agentId) then Err(EmptyAgent)
    else
      match Base64.Decode(s.outputBase64)
      case None => Err(InvalidBase64)
      case Some(output) => Ok(StoredResult(id, task.id, s.agentId, hash(s.agentId), output))
  }

  function ViewResult(r: StoredResult): ResultView {
    ResultView(r.id, r.taskId, r.agentId, Base64.Encode(r.output))
  }

  /** `execute_and_build_result`: the output is encoded and goes through the submission path. */
  function ExecuteAndBuild(engine: StoredTask -> Result<seq<byte>, string>, task: StoredTask, agentId: string,
                           id: string, hash: string -> seq<byte>): Result<StoredResult, ApiError>
  {
    match engine(task)
    case Err(message) => Err(EngineFailed(message))
    case Ok(output) => ResultFrom(ResultSubmission(task.id, agentId, Base64.Encode(output)), task, id, hash)
  }

  /** A submitted task is accepted exactly when it is described and its input is the encoding of
      some bytes. It is shown back as it came, pending, with an id text that reads as the hash of
      its requester; and the stored input has the submitted text as its only encoding. */
  lemma TaskShownBack(s: TaskSubmission, id: string, hash: string -> seq<byte>)
    requires |hash(s.requesterId)| == 32
    ensures TaskFrom(s, id, hash).Ok?
      <==> (!Blank(s.description) && exists b: seq<byte> :: Base64.Encode(b) == s.inputBase64)
    ensures TaskFrom(s, id, hash).Ok? ==>
      var t := TaskFrom(s, id, hash).value;
      var v := ViewTask(t);
      && Base64.Encode(t.input) == s.inputBase64
      && Hex.HexTo32(Some(Json.Str(v.requesterId))) == Ok(hash(s.requesterId))
      && v.(requesterId := "") == TaskView(id, "", s.description, false, s.deadline, s.maxBudget)
  {
    Base64.AcceptsExactlyEncodings(s.inputBase64);
    if TaskFrom(s, id, hash).Ok? {
      Base64.EncodeDecode(s.inputBase64);
      Hex.HexRoundTrip(hash(s.requesterId));
    }
  }

  /** A submitted result is accepted exactly when it names its agent and its output is the
      encoding of some bytes, and it is shown back with the very same output text. */
  lemma ResultShownBack(s: ResultSubmission, task: StoredTask, id: string, hash: string -> seq<byte>)
    ensures ResultFrom(s, task, id, hash).Ok?
      <==> (!Blank(s.agentId) && exists b: seq<byte> :: Base64.Encode(b) == s.outputBase64)
    ensures ResultFrom(s, task, id, hash).Ok? ==>
      ViewResult(ResultFrom(s, task, id, hash).value) == ResultView(id, task.id, s.agentId, s.outputBase64)
  {
    Base64.AcceptsExactlyEncodings(s.outputBase64);
    if ResultFrom(s, task, id, hash).Ok? {
      Base64.EncodeDecode(s.outputBase64);
    }
  }

  /** Whatever bytes an engine produces are stored unchanged; the encoding on the way can never
      be the reason for a refusal. */
  lemma EngineOutputSurvives(engine: StoredTask -> Result<seq<byte>, string>, task: StoredTask, agentId: string,
                             id: string, hash: string -> seq<byte>)
    ensures var r := ExecuteAndBuild(engine, task, agentId, id, hash);
      && (r.Ok? <==> engine(task).Ok? && !Blank(agentId))
      && (r.Ok? ==> r.value == StoredResult(id, task.id, agentId, hash(agentId), engine(task).value))
      && r != Err(InvalidBase64)
  {
    if engine(task).Ok? {
      Base64.DecodeEncode(engine(task).value);
    }
  }

  /** An engine that returns its input: the text a client submits as input comes back as the
      output text of the local execution endpoint. */
  lemma InputComesBack(s: TaskSubmission, id: string, resultId: string, hash: string -> seq<byte>)
    requires TaskFrom(s, id, hash).Ok?
    ensures var echo := (t: StoredTask) => Ok(t.input);
      var r := ExecuteAndBuild(echo, TaskFrom(s, id, hash).value, "local-echo", resultId, hash);
      r.Ok? && ViewResult(r.value) == ResultView(resultId, id, "local-echo", s.inputBase64)
  {
    var echo := (t: StoredTask) => Ok(t.input);
    var task := TaskFrom(s, id, hash).value;
    var agent := "local-echo";
    assert !IdText.IsWhitespace(agent[0]);
    EngineOutputSurvives(echo, task, agent, resultId, hash);
    Base64.EncodeDecode(s.inputBase64);
  }
}
