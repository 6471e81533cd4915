/** The loop between the language model and the tools, with its bookkeeping of the execution plan:
    `_run_tool_loop` of mcp-host/llm.py and the plan of mcp-host/models.py. What the model, the tool
    server, the budget and the loop guard answer is a script. */
module ToolLoop {
  import opened Options
  import opened Json
  import T = Text

  type Arguments = map<string, Json>

  // ---------- The plan ----------

  datatype StepStatus = Pending | Running | Success | Failed | Skipped

  datatype PlanStatus = InProgress | Completed | PartialFailure | AllFailed

  /** The fields of a step other than its identifier and its times. An error is kept as a value, of
      which the program keeps the text. */
  datatype StepRecord =
    StepRecord(tool: string, params: Arguments, status: StepStatus, result: Option<Arguments>, error: Option<Json>)

  class PlanStep {
    var tool: string
    var params: Arguments
    var status: StepStatus
    var result: Option<Arguments>
    var error: Option<Json>

    constructor (tool: string, params: Arguments)
      ensures Record() == StepRecord(tool, params, Pending, None, None)
    {
      this.tool, this.params, status, result, error := tool, params, Pending, None, None;
    }

    function Record(): StepRecord
      reads this
    {
      StepRecord(tool, params, status, result, error)
    }
  }

  /** How a plan ends, by the statuses that occur among its steps. */
  function FinalStatus(records: seq<StepRecord>): PlanStatus {
    var statuses := set i | 0 <= i < |records| :: records[i].status;
    if records == [] then Completed
    else if statuses == {Success} then Completed
    else if statuses == {Failed} then AllFailed
    else if Failed in statuses then PartialFailure
    else Completed
  }

  class ExecutionPlan {
    var steps: seq<PlanStep>
    var status: PlanStatus

    constructor ()
      ensures steps == [] && status == InProgress
    {
      steps, status := [], InProgress;
    }

    function Records(): (records: seq<StepRecord>)
      reads this, steps
      ensures |records| == |steps| && forall i | 0 <= i < |records| :: records[i] == steps[i].Record()
    {
      seq(|steps|, i requires 0 <= i < |steps| reads this, steps => steps[i].Record())
    }

    method AddStep(tool: string, params: Arguments) returns (step: PlanStep)
      modifies this`steps
      ensures fresh(step) && steps == old(steps) + [step]
      ensures Records() == old(Records()) + [StepRecord(tool, params, Pending, None, None)]
    {
      step := new PlanStep(tool, params);
      steps := steps + [step];
    }

    method StartStep(step: PlanStep)
      modifies step`status
      ensures step.status == Running
    {
      step.status := Running;
    }

    method CompleteStep(step: PlanStep, result: Arguments)
      modifies step`status, step`result
      ensures step.status == Success && step.result == Some(result)
    {
      step.status := Success;
      step.result := Some(result);
    }

    method FailStep(step: PlanStep, error: Json)
      modifies step`status, step`error
      ensures step.status == Failed && step.error == Some(error)
    {
      step.status := Failed;
      step.error := Some(error);
    }

    method Finalize()
      modifies this`status
      ensures status == FinalStatus(Records())
    {
      var records := Records();
      var statuses := set i | 0 <= i < |steps| :: steps[i].status;
      assert forall i | 0 <= i < |steps| :: steps[i].status == records[i].status;
      assert statuses == set i | 0 <= i < |records| :: records[i].status;
      if steps == [] {
        status := Completed;
      } else if statuses == {Success} {
        status := Completed;
      } else if statuses == {Failed} {
        status := AllFailed;
      } else if Failed in statuses {
        status := PartialFailure;
      } else {
        status := Completed;
      }
    }
  }

  // ---------- The conversation ----------

  /** An empty identifier is no identifier. */
  datatype Part =
    | Text(text: string)
    | FunctionCall(id: string, name: string, args: Arguments)
    | FunctionResponse(id: string, name: string, response: Arguments)

  datatype Role = User | Model

  datatype Turn = Turn(role: Role, parts: seq<Part>) | NoContent

  class Conversation {
    var turns: seq<Turn>

    constructor ()
      ensures turns == []
    {
      turns := [];
    }
  }

  function Calls(parts: seq<Part>): (calls: seq<Part>)
    ensures forall i | 0 <= i < |calls| :: calls[i].FunctionCall?
  {
    if parts == [] then []
    else
      var last := parts[|parts| - 1];
      Calls(parts[..|parts| - 1]) + if last.FunctionCall? then [last] else []
  }

  function CallsIn(turn: Turn): (calls: seq<Part>)
    ensures forall i | 0 <= i < |calls| :: calls[i].FunctionCall?
  {
    if turn.Turn? then Calls(turn.parts) else []
  }

  datatype LoopNotice = LoopNotice(message: string, suggestion: string, occurrences: nat)

  /** What a call meets: the loop guard's notice, if it gives one, and what the tool would return. */
  datatype Outcome = Outcome(loop: Option<LoopNotice>, result: Json)

  /** A round: the budget's message if it is exhausted, what the model generates, the text for an
      empty answer, and the outcome of each call. */
  datatype Round = Round(exceeded: Option<string>, content: Turn, fallback: string, outcome: nat -> Outcome)

  datatype Script = Script(maxRounds: nat, rounds: nat -> Round, final: Turn)

  datatype Host = Host(role: string, allowed: (string, string) -> bool)

  predicate Forbids(host: Host, tool: string) {
    host.role != "" && !host.allowed(tool, host.role)
  }

  function ForbiddenMessage(host: Host, tool: string): Json {
    Str("Tool '" + tool + "' is not available for role '" + host.role + "'")
  }

  function Forbidden(host: Host, tool: string): Arguments {
    map["error" := Obj(map[
      "code" := Str("forbidden_tool"),
      "message" := ForbiddenMessage(host, tool),
      "suggestion" := Str("Choose a different tool that fits your role permissions.")])]
  }

  function LoopDetected(n: LoopNotice): Json {
    Obj(map["error" := Obj(map[
      "code" := Str("loop_detected"), "message" := Str(n.message),
      "suggestion" := Str(n.suggestion), "occurrences" := Num(n.occurrences as real)])])
  }

  function AsDict(result: Json): Arguments {
    if result.Obj? then result.fields else map["result" := result]
  }

  // ---------- The specification ----------

  function ResultOf(o: Outcome): Json {
    if o.loop.Some? then LoopDetected(o.loop.value) else o.result
  }

  predicate AnswersCall(call: Part, response: Part)
    requires call.FunctionCall?
  {
    response.FunctionResponse? && response.name == call.name
  }

  function ResponseTo(host: Host, call: Part, o: Outcome): (response: Part)
    requires call.FunctionCall?
    ensures AnswersCall(call, response)
  {
    if Forbids(host, call.name) then FunctionResponse("", call.name, Forbidden(host, call.name))
    else FunctionResponse(call.id, call.name, map["result" := ResultOf(o)])
  }

  function StepOf(host: Host, call: Part, o: Outcome): StepRecord
    requires call.FunctionCall?
  {
    if Forbids(host, call.name) then
      StepRecord(call.name, call.args, Failed, None, Some(ForbiddenMessage(host, call.name)))
    else if IsError(ResultOf(o)) then
      StepRecord(call.name, call.args, Failed, None, Some(ResultOf(o).fields["error"]))
    else
      StepRecord(call.name, call.args, Success, Some(AsDict(ResultOf(o))), None)
  }

  predicate AllCalls(calls: seq<Part>) {
    forall i | 0 <= i < |calls| :: calls[i].FunctionCall?
  }

  function Responses(host: Host, calls: seq<Part>, outcome: nat -> Outcome): (parts: seq<Part>)
    requires AllCalls(calls)
  {
    seq(|calls|, i requires 0 <= i < |calls| => ResponseTo(host, calls[i], outcome(i)))
  }

  function RoundSteps(host: Host, calls: seq<Part>, outcome: nat -> Outcome): (steps: seq<StepRecord>)
    requires AllCalls(calls)
  {
    seq(|calls|, i requires 0 <= i < |calls| => StepOf(host, calls[i], outcome(i)))
  }

  /** The round has tool calls to make. */
  predicate GoesOn(round: Round) {
    round.exceeded.None? && CallsIn(round.content) != []
  }

  /** The number of rounds, from `r` on, that make tool calls before one ends the loop. */
  function Executed(s: Script, r: nat): (n: nat)
    requires r <= s.maxRounds
    ensures r <= n <= s.maxRounds
    ensures forall k | r <= k < n :: GoesOn(s.rounds(k))
    ensures n < s.maxRounds ==> !GoesOn(s.rounds(n))
    decreases s.maxRounds - r
  {
    if r == s.maxRounds || !GoesOn(s.rounds(r)) then r else Executed(s, r + 1)
  }

  function Answering(host: Host, round: Round): Turn {
    Turn(User, Responses(host, CallsIn(round.content), round.outcome))
  }

  /** The turns of the first `n` rounds. */
  function Turns(host: Host, s: Script, n: nat): seq<Turn> {
    if n == 0 then []
    else Turns(host, s, n - 1) + [s.rounds(n - 1).content, Answering(host, s.rounds(n - 1))]
  }

  function Steps(host: Host, s: Script, n: nat): seq<StepRecord> {
    if n == 0 then []
    else Steps(host, s, n - 1) + RoundSteps(host, CallsIn(s.rounds(n - 1).content), s.rounds(n - 1).outcome)
  }

  predicate IsEmpty(content: Turn) {
    content.NoContent? || content.parts == []
  }

  function Summarize(): Turn {
    Turn(User, [Text("Please summarize the results so far and provide your final answer.")])
  }

  /** What a round that makes no tool calls leaves in the history, and what it answers. */
  function StopTurns(round: Round): seq<Turn> {
    if round.exceeded.Some? || IsEmpty(round.content) then [] else [round.content]
  }

  function StopText(round: Round): string {
    if round.exceeded.Some? then round.exceeded.value
    else if IsEmpty(round.content) then round.fallback
    else ExtractText(round.content)
  }

  lemma NoPartsNoCalls(content: Turn)
    requires IsEmpty(content)
    ensures CallsIn(content) == []
  {
  }

  /** The turns after the last round with tool calls. */
  function Ending(s: Script, n: nat): seq<Turn> {
    if n >= s.maxRounds then [Summarize(), s.final] else StopTurns(s.rounds(n))
  }

  function Added(host: Host, s: Script): seq<Turn> {
    Turns(host, s, Executed(s, 0)) + Ending(s, Executed(s, 0))
  }

  function ExtractText(content: Turn): string {
    if IsEmpty(content) then "(No text response)"
    else
      var texts := Texts(content.parts);
      if texts == [] then "(No text response)" else Lines(texts)
  }

  function Texts(parts: seq<Part>): seq<string> {
    if parts == [] then []
    else (if parts[0].Text? && parts[0].text != "" then [parts[0].text] else []) + Texts(parts[1..])
  }

  function Lines(texts: seq<string>): string
    requires texts != []
  {
    if |texts| == 1 then texts[0] else texts[0] + "\n" + Lines(texts[1..])
  }

  function FinalText(s: Script): string {
    var n := Executed(s, 0);
    if n == s.maxRounds then ExtractText(s.final) else StopText(s.rounds(n))
  }

  // ---------- The loop ----------

  method CollectCalls(parts: seq<Part>) returns (calls: seq<Part>)
    ensures calls == Calls(parts)
  {
    calls := [];
    for i := 0 to |parts|
      invariant calls == Calls(parts[..i])
    {
      assert parts[..i + 1][..i] == parts[..i];
      if parts[i].FunctionCall? {
        calls := calls + [parts[i]];
      }
    }
    assert parts[..|parts|] == parts;
  }

  method ExecuteCall(host: Host, call: Part, o: Outcome, plan: ExecutionPlan?) returns (response: Part)
    requires call.FunctionCall?
    modifies plan
    ensures response == ResponseTo(host, call, o)
    ensures plan != null ==>
              plan.status == old(plan.status) && plan.Records() == old(plan.Records()) + [StepOf(host, call, o)]
  {
    hide Forbidden, ForbiddenMessage, LoopDetected, AsDict;
    var step: PlanStep? := null;
    if plan != null {
      step := plan.AddStep(call.name, call.args);
      plan.StartStep(step);
    }
    if host.role != "" && !host.allowed(call.name, host.role) {
      var result := Forbidden(host, call.name);
      if plan != null {
        plan.FailStep(step, ForbiddenMessage(host, call.name));
      }
      return FunctionResponse("", call.name, result);
    }
    var result: Json;
    if o.loop.Some? {
      result := LoopDetected(o.loop.value);
    } else {
      result := o.result;
    }
    if plan != null {
      if IsError(result) {
        plan.FailStep(step, result.fields["error"]);
      } else {
        plan.CompleteStep(step, AsDict(result));
      }
    }
    response := FunctionResponse(call.id, call.name, map["result" := result]);
  }

  method ExecuteCalls(host: Host, calls: seq<Part>, outcome: nat -> Outcome, plan: ExecutionPlan?)
    returns (parts: seq<Part>)
    requires AllCalls(calls)
    modifies plan
    ensures parts == Responses(host, calls, outcome)
    ensures plan != null ==>
              && plan.status == old(plan.status)
              && plan.Records() == old(plan.Records()) + RoundSteps(host, calls, outcome)
  {
    hide ResponseTo, StepOf;
    parts := [];
    for k := 0 to |calls|
      invariant parts == Responses(host, calls[..k], outcome)
      invariant plan != null ==> plan.status == old(plan.status)
      invariant plan != null ==> plan.Records() == old(plan.Records()) + RoundSteps(host, calls[..k], outcome)
    {
      var response := ExecuteCall(host, calls[k], outcome(k), plan);
      parts := parts + [response];
      assert RoundSteps(host, calls[..k + 1], outcome) ==
             RoundSteps(host, calls[..k], outcome) + [StepOf(host, calls[k], outcome(k))];
    }
    assert calls[..|calls|] == calls;
  }

  /** One round; the text is there when the loop ends with it. */
  method RunRound(host: Host, round: Round, history: Conversation, plan: ExecutionPlan?) returns (text: Option<string>)
    modifies history, plan
    ensures text == if GoesOn(round) then None else Some(StopText(round))
    ensures history.turns == old(history.turns) +
            if GoesOn(round) then [round.content, Answering(host, round)] else StopTurns(round)
    ensures plan != null ==> plan.status == old(plan.status)
    ensures plan != null ==>
              plan.Records() == old(plan.Records()) +
              if GoesOn(round) then RoundSteps(host, CallsIn(round.content), round.outcome) else []
  {
    hide Responses, RoundSteps, Calls, ExtractText, ExecutionPlan.Records;
    if round.exceeded.Some? {
      return Some(round.exceeded.value);
    }
    if IsEmpty(round.content) {
      NoPartsNoCalls(round.content);
      return Some(round.fallback);
    }
    var calls := CollectCalls(round.content.parts);
    if calls == [] {
      history.turns := history.turns + [round.content];
      return Some(ExtractText(round.content));
    }
    history.turns := history.turns + [round.content];
    var parts := ExecuteCalls(host, calls, round.outcome, plan);
    history.turns := history.turns + [Turn(User, parts)];
    text := None;
  }

  lemma NoRounds(host: Host, s: Script, turns: seq<Turn>, records: seq<StepRecord>)
    ensures turns + Turns(host, s, 0) == turns && records + Steps(host, s, 0) == records
  {
  }

  /** What round `r` adds to the turns and records so far, if the loop reaches it. */
  lemma NextRound(host: Host, s: Script, r: nat, turns: seq<Turn>, records: seq<StepRecord>)
    requires r <= s.maxRounds && Executed(s, 0) == Executed(s, r)
    ensures r < s.maxRounds && GoesOn(s.rounds(r)) ==>
              && Executed(s, 0) == Executed(s, r + 1)
              && turns + Turns(host, s, r) + [s.rounds(r).content, Answering(host, s.rounds(r))] ==
                 turns + Turns(host, s, r + 1)
              && records + Steps(host, s, r) + RoundSteps(host, CallsIn(s.rounds(r).content), s.rounds(r).outcome) ==
                 records + Steps(host, s, r + 1)
    ensures r == s.maxRounds ==>
              && Executed(s, 0) == r && FinalText(s) == ExtractText(s.final)
              && turns + Turns(host, s, r) + [Summarize()] + [s.final] == turns + Added(host, s)
    ensures r < s.maxRounds && !GoesOn(s.rounds(r)) ==>
              && Executed(s, 0) == r && FinalText(s) == StopText(s.rounds(r))
              && turns + Turns(host, s, r) + StopTurns(s.rounds(r)) == turns + Added(host, s)
              && records + Steps(host, s, r) + [] == records + Steps(host, s, r)
  {
    if r == s.maxRounds {
      hide Turns, Steps;
      assert [Summarize()] + [s.final] == Ending(s, r);
      T.ConcatAssoc(turns + Turns(host, s, r), [Summarize()], [s.final]);
      T.ConcatAssoc(turns, Turns(host, s, r), Ending(s, r));
    } else if GoesOn(s.rounds(r)) {
      T.ConcatAssoc(turns, Turns(host, s, r), [s.rounds(r).content, Answering(host, s.rounds(r))]);
      T.ConcatAssoc(records, Steps(host, s, r), RoundSteps(host, CallsIn(s.rounds(r).content), s.rounds(r).outcome));
    } else {
      hide Turns, Steps;
      T.ConcatAssoc(turns, Turns(host, s, r), Ending(s, r));
    }
  }

  method RunToolLoop(host: Host, s: Script, history: Conversation, plan: ExecutionPlan?) returns (text: string)
    modifies history, plan
    ensures history.turns == old(history.turns) + Added(host, s)
    ensures text == FinalText(s)
    ensures plan != null ==> plan.status == old(plan.status)
    ensures plan != null ==> plan.Records() == old(plan.Records()) + Steps(host, s, Executed(s, 0))
  {
    hide *;
    ghost var turns := history.turns;
    ghost var records := if plan == null then [] else plan.Records();
    NoRounds(host, s, turns, records);
    var r := 0;
    while r < s.maxRounds
      invariant r <= s.maxRounds && Executed(s, 0) == Executed(s, r)
      invariant history.turns == old(history.turns) + Turns(host, s, r)
      invariant plan != null ==> plan.status == old(plan.status)
      invariant plan != null ==> plan.Records() == old(plan.Records()) + Steps(host, s, r)
    {
      NextRound(host, s, r, turns, records);
      var done := RunRound(host, s.rounds(r), history, plan);
      if done.Some? {
        return done.value;
      }
      r := r + 1;
    }
    NextRound(host, s, r, turns, records);
    history.turns := history.turns + [Summarize()];
    history.turns := history.turns + [s.final];
    text := ExtractText(s.final);
  }

  // ---------- Every call is answered ----------

  /** `next` is a user turn with one response for each call of `turn`, naming the same tools in order. */
  predicate AnsweredBy(turn: Turn, next: Turn) {
    var calls := CallsIn(turn);
    && next.Turn? && next.role == User && |next.parts| == |calls|
    && forall j | 0 <= j < |calls| :: AnswersCall(calls[j], next.parts[j])
  }

  predicate Paired(turns: seq<Turn>) {
    forall i | 0 <= i < |turns| && CallsIn(turns[i]) != [] :: i + 1 < |turns| && AnsweredBy(turns[i], turns[i + 1])
  }

  predicate OutOfRounds(s: Script) {
    Executed(s, 0) == s.maxRounds
  }

  lemma {:induction false} NoCallsAmong(parts: seq<Part>)
    requires forall i | 0 <= i < |parts| :: !parts[i].FunctionCall?
    ensures Calls(parts) == []
  {
    if parts != [] {
      NoCallsAmong(parts[..|parts| - 1]);
    }
  }

  lemma {:induction false} TurnAt(host: Host, s: Script, n: nat, r: nat)
    requires r < n
    ensures |Turns(host, s, n)| == 2 * n
    ensures Turns(host, s, n)[2 * r] == s.rounds(r).content
    ensures Turns(host, s, n)[2 * r + 1] == Answering(host, s.rounds(r))
  {
    hide Answering;
    if r < n - 1 {
      TurnAt(host, s, n - 1, r);
    } else if n > 1 {
      TurnAt(host, s, n - 1, 0);
    }
  }

  lemma AnsweringPairs(host: Host, round: Round)
    ensures AnsweredBy(round.content, Answering(host, round))
    ensures CallsIn(Answering(host, round)) == []
  {
    var calls, parts := CallsIn(round.content), Answering(host, round).parts;
    forall i | 0 <= i < |parts|
      ensures AnswersCall(calls[i], parts[i])
    {
      assert parts[i] == ResponseTo(host, calls[i], round.outcome(i));
    }
    NoCallsAmong(parts);
  }

  lemma TurnsPair(host: Host, s: Script, n: nat, i: nat)
    requires i < 2 * n
    ensures i < |Turns(host, s, n)| == 2 * n
    ensures CallsIn(Turns(host, s, n)[i]) != [] ==>
              i + 1 < 2 * n && AnsweredBy(Turns(host, s, n)[i], Turns(host, s, n)[i + 1])
  {
    TurnAt(host, s, n, i / 2);
    AnsweringPairs(host, s.rounds(i / 2));
    hide Turns, Answering, CallsIn, AnsweredBy;
    assert i == 2 * (i / 2) || i == 2 * (i / 2) + 1;
  }

  lemma EndingPairs(s: Script, n: nat)
    requires n <= s.maxRounds && (n < s.maxRounds ==> !GoesOn(s.rounds(n)))
    ensures n < s.maxRounds ==>
              |Ending(s, n)| <= 1 && forall i | 0 <= i < |Ending(s, n)| :: CallsIn(Ending(s, n)[i]) == []
    ensures n == s.maxRounds ==> Ending(s, n) == [Summarize(), s.final] && CallsIn(Summarize()) == []
  {
    NoCallsAmong(Summarize().parts);
  }

  /** When the loop returns, each turn with k calls that it added is followed at once by a user turn
      with exactly k responses, naming the same tools in order, if and only if it did not run out of
      rounds with a last answer that still asks for calls. */
  lemma PairedExactly(host: Host, s: Script)
    ensures Paired(Added(host, s)) <==> !(OutOfRounds(s) && CallsIn(s.final) != [])
  {
    var n := Executed(s, 0);
    var turns, ending, added := Turns(host, s, n), Ending(s, n), Added(host, s);
    EndingPairs(s, n);
    TurnsLength(host, s, n);
    hide Turns, Ending, CallsIn, AnsweredBy, Executed;
    forall i | 0 <= i < 2 * n && CallsIn(added[i]) != []
      ensures i + 1 < |added| && AnsweredBy(added[i], added[i + 1])
    {
      TurnsPair(host, s, n, i);
    }
    assert forall i | 2 * n <= i < |added| :: added[i] == ending[i - 2 * n];
    if OutOfRounds(s) {
      assert added[|added| - 1] == s.final;
    }
  }

  lemma TurnsLength(host: Host, s: Script, n: nat)
    ensures |Turns(host, s, n)| == 2 * n
  {
    if n > 0 {
      TurnAt(host, s, n, 0);
    }
  }

  /** A model that answers every round, and the request to sum up, with one and the same call. */
  function Insisting(maxRounds: nat, call: Part): Script {
    var content := Turn(Model, [call]);
    Script(maxRounds, (r: nat) => Round(None, content, "", (i: nat) => Outcome(None, Obj(map[]))), content)
  }

  lemma OneCall(call: Part)
    requires call.FunctionCall?
    ensures CallsIn(Turn(Model, [call])) == [call]
  {
    assert [call][..0] == [];
    assert Calls([call]) == Calls([]) + [call];
  }

  lemma InsistingGoesOn(maxRounds: nat, call: Part, r: nat)
    requires call.FunctionCall?
    ensures GoesOn(Insisting(maxRounds, call).rounds(r))
  {
    OneCall(call);
    hide CallsIn;
  }

  lemma InsistingRunsOut(maxRounds: nat, call: Part)
    requires call.FunctionCall?
    ensures OutOfRounds(Insisting(maxRounds, call)) && CallsIn(Insisting(maxRounds, call).final) != []
  {
    OneCall(call);
    InsistingGoesOn(maxRounds, call, Executed(Insisting(maxRounds, call), 0));
    hide CallsIn, GoesOn;
  }

  /** Its last call is not answered, whatever the number of rounds. */
  lemma UnansweredExample(host: Host, maxRounds: nat, call: Part)
    requires call.FunctionCall?
    ensures !Paired(Added(host, Insisting(maxRounds, call)))
  {
    hide *;
    InsistingRunsOut(maxRounds, call);
    PairedExactly(host, Insisting(maxRounds, call));
  }

  // ---------- The plan mirrors the conversation ----------

  /** All calls that the turns ask for, in order. */
  function Requested(turns: seq<Turn>): (calls: seq<Part>)
    ensures AllCalls(calls)
  {
    if turns == [] then [] else Requested(turns[..|turns| - 1]) + CallsIn(turns[|turns| - 1])
  }

  /** All parts of the turns that come right after a turn with calls, in order. */
  function Replies(turns: seq<Turn>): seq<Part> {
    if |turns| < 2 then []
    else
      var last, previous := turns[|turns| - 1], turns[|turns| - 2];
      Replies(turns[..|turns| - 1]) + if CallsIn(previous) != [] && last.Turn? then last.parts else []
  }

  predicate ReportsError(response: Part) {
    response.FunctionResponse? &&
    ("error" in response.response || ("result" in response.response && IsError(response.response["result"])))
  }

  /** The step records the call and how it was answered: failed exactly when the model is shown an
      error, and with the result that the model is shown otherwise. */
  predicate Mirrors(step: StepRecord, call: Part, response: Part) {
    && call.FunctionCall? && response.FunctionResponse? && step.tool == call.name == response.name
    && step.params == call.args
    && step.status == (if ReportsError(response) then Failed else Success)
    && (!ReportsError(response) ==>
          "result" in response.response && step.result == Some(AsDict(response.response["result"])))
  }

  predicate AllMirror(steps: seq<StepRecord>, calls: seq<Part>, responses: seq<Part>) {
    && |calls| == |responses| == |steps|
    && forall i | 0 <= i < |steps| :: Mirrors(steps[i], calls[i], responses[i])
  }

  lemma RoundMirrors(host: Host, calls: seq<Part>, outcome: nat -> Outcome)
    requires AllCalls(calls)
    ensures AllMirror(RoundSteps(host, calls, outcome), calls, Responses(host, calls, outcome))
  {
    forall i | 0 <= i < |calls|
      ensures Mirrors(StepOf(host, calls[i], outcome(i)), calls[i], ResponseTo(host, calls[i], outcome(i)))
    {
    }
    hide Mirrors, StepOf, ResponseTo;
  }

  lemma MirrorConcat(
    steps: seq<StepRecord>, calls: seq<Part>, responses: seq<Part>,
    steps': seq<StepRecord>, calls': seq<Part>, responses': seq<Part>)
    requires AllMirror(steps, calls, responses) && AllMirror(steps', calls', responses')
    ensures AllMirror(steps + steps', calls + calls', responses + responses')
  {
    hide Mirrors;
  }

  lemma RequestedSnoc(turns: seq<Turn>, turn: Turn)
    ensures Requested(turns + [turn]) == Requested(turns) + CallsIn(turn)
  {
    assert (turns + [turn])[..|turns|] == turns;
  }

  lemma RepliesSnoc(turns: seq<Turn>, turn: Turn)
    ensures turns == [] || CallsIn(turns[|turns| - 1]) == [] ==> Replies(turns + [turn]) == Replies(turns)
    ensures turns != [] && CallsIn(turns[|turns| - 1]) != [] && turn.Turn? ==>
              Replies(turns + [turn]) == Replies(turns) + turn.parts
  {
    assert (turns + [turn])[..|turns|] == turns;
  }

  /** A turn with calls and the turn that answers it. */
  lemma PairSnoc(turns: seq<Turn>, asking: Turn, answering: Turn)
    requires turns == [] || CallsIn(turns[|turns| - 1]) == []
    requires CallsIn(asking) != [] && answering.Turn? && CallsIn(answering) == []
    ensures Requested(turns + [asking, answering]) == Requested(turns) + CallsIn(asking)
    ensures Replies(turns + [asking, answering]) == Replies(turns) + answering.parts
  {
    hide CallsIn, Requested, Replies;
    assert turns + [asking, answering] == (turns + [asking]) + [answering];
    RequestedSnoc(turns, asking);
    RequestedSnoc(turns + [asking], answering);
    assert Requested(turns) + CallsIn(asking) + [] == Requested(turns) + CallsIn(asking);
    RepliesSnoc(turns, asking);
    RepliesSnoc(turns + [asking], answering);
  }

  lemma RoundMirrorsToo(host: Host, round: Round, turns: seq<Turn>, steps: seq<StepRecord>)
    requires turns == [] || CallsIn(turns[|turns| - 1]) == []
    requires AllMirror(steps, Requested(turns), Replies(turns)) && GoesOn(round)
    ensures var more := turns + [round.content, Answering(host, round)];
            AllMirror(steps + RoundSteps(host, CallsIn(round.content), round.outcome), Requested(more), Replies(more))
  {
    AnsweringPairs(host, round);
    hide CallsIn, Requested, Replies, AllMirror, AnsweredBy, RoundSteps, Responses;
    PairSnoc(turns, round.content, Answering(host, round));
    var calls := CallsIn(round.content);
    RoundMirrors(host, calls, round.outcome);
    MirrorConcat(steps, Requested(turns), Replies(turns),
                 RoundSteps(host, calls, round.outcome), calls, Responses(host, calls, round.outcome));
  }

  /** What is kept of the turns and the steps, round by round. */
  predicate Kept(turns: seq<Turn>, steps: seq<StepRecord>) {
    && (turns == [] || CallsIn(turns[|turns| - 1]) == [])
    && AllMirror(steps, Requested(turns), Replies(turns))
  }

  lemma RoundKeeps(host: Host, round: Round, turns: seq<Turn>, steps: seq<StepRecord>)
    requires Kept(turns, steps) && GoesOn(round)
    ensures Kept(turns + [round.content, Answering(host, round)],
                 steps + RoundSteps(host, CallsIn(round.content), round.outcome))
  {
    RoundMirrorsToo(host, round, turns, steps);
    AnsweringPairs(host, round);
    hide CallsIn, Requested, Replies, AllMirror, AnsweredBy, RoundSteps, Answering, GoesOn;
  }

  lemma TurnsNext(host: Host, s: Script, n: nat)
    ensures Turns(host, s, n + 1) == Turns(host, s, n) + [s.rounds(n).content, Answering(host, s.rounds(n))]
    ensures Steps(host, s, n + 1) ==
            Steps(host, s, n) + RoundSteps(host, CallsIn(s.rounds(n).content), s.rounds(n).outcome)
  {
  }

  lemma NothingKept(host: Host, s: Script)
    ensures Kept(Turns(host, s, 0), Steps(host, s, 0))
  {
    assert AllMirror([], [], []);
  }

  lemma {:induction false} TurnsMirror(host: Host, s: Script, n: nat)
    requires forall r | 0 <= r < n :: GoesOn(s.rounds(r))
    ensures Kept(Turns(host, s, n), Steps(host, s, n))
  {
    hide *;
    if n == 0 {
      NothingKept(host, s);
    } else {
      TurnsNext(host, s, n - 1);
      TurnsMirror(host, s, n - 1);
      RoundKeeps(host, s.rounds(n - 1), Turns(host, s, n - 1), Steps(host, s, n - 1));
    }
  }

  /** The calls of a last answer after the rounds ran out; no step and no response is made for them. */
  function Unanswered(s: Script): (calls: seq<Part>)
    ensures AllCalls(calls)
  {
    if OutOfRounds(s) then CallsIn(s.final) else []
  }

  lemma EndingAdds(s: Script, n: nat, turns: seq<Turn>)
    requires n == Executed(s, 0) && (turns == [] || CallsIn(turns[|turns| - 1]) == [])
    ensures Requested(turns + Ending(s, n)) == Requested(turns) + Unanswered(s)
    ensures Replies(turns + Ending(s, n)) == Replies(turns)
  {
    EndingPairs(s, n);
    var ending := Ending(s, n);
    hide CallsIn, Requested, Replies, Ending, Executed, Summarize;
    assert forall calls: seq<Part> :: calls + [] == calls;
    if OutOfRounds(s) {
      assert turns + ending == (turns + [Summarize()]) + [s.final];
      RequestedSnoc(turns, Summarize());
      RequestedSnoc(turns + [Summarize()], s.final);
      RepliesSnoc(turns, Summarize());
      RepliesSnoc(turns + [Summarize()], s.final);
    } else if ending == [] {
      assert turns + ending == turns;
    } else {
      assert ending == [ending[0]];
      RequestedSnoc(turns, ending[0]);
      RepliesSnoc(turns, ending[0]);
    }
  }

  /** The plan's steps are the calls of the added turns, in order, all ended as a success or a failure
      as the model was told, except that calls of an answer after the last round get no step. */
  lemma PlanMirrorsConversation(host: Host, s: Script)
    ensures var (steps, turns) := (Steps(host, s, Executed(s, 0)), Added(host, s));
            && |Requested(turns)| == |steps| + |Unanswered(s)| && Requested(turns)[|steps|..] == Unanswered(s)
            && AllMirror(steps, Requested(turns)[..|steps|], Replies(turns))
  {
    var n := Executed(s, 0);
    var turns := Turns(host, s, n);
    TurnsMirror(host, s, n);
    EndingAdds(s, n, turns);
    hide Requested, Replies, Turns, Ending, Unanswered, Steps, CallsIn;
    assert |Requested(turns)| == |Steps(host, s, n)|;
  }

  // ---------- How the plan ends ----------

  predicate SomeFailed(records: seq<StepRecord>) {
    exists i | 0 <= i < |records| :: records[i].status == Failed
  }

  predicate SomeNotFailed(records: seq<StepRecord>) {
    exists i | 0 <= i < |records| :: records[i].status != Failed
  }

  lemma FinalStatusExactly(records: seq<StepRecord>)
    ensures FinalStatus(records) ==
            if !SomeFailed(records) then Completed else if SomeNotFailed(records) then PartialFailure else AllFailed
  {
    var statuses := set i | 0 <= i < |records| :: records[i].status;
    assert forall i | 0 <= i < |records| :: records[i].status in statuses;
    if SomeFailed(records) && !SomeNotFailed(records) {
      assert statuses == {Failed};
    } else if records != [] {
      assert statuses != {Failed} by { assert records[0].status in statuses; }
    }
  }

  predicate SomeError(replies: seq<Part>) {
    exists i | 0 <= i < |replies| :: ReportsError(replies[i])
  }

  predicate SomeFine(replies: seq<Part>) {
    exists i | 0 <= i < |replies| :: !ReportsError(replies[i])
  }

  lemma MirrorStatuses(steps: seq<StepRecord>, calls: seq<Part>, replies: seq<Part>)
    requires AllMirror(steps, calls, replies)
    ensures SomeFailed(steps) <==> SomeError(replies)
    ensures SomeNotFailed(steps) <==> SomeFine(replies)
    ensures steps == [] <==> replies == []
  {
    assert forall i | 0 <= i < |steps| ::
        Mirrors(steps[i], calls[i], replies[i]) ==> (steps[i].status == Failed <==> ReportsError(replies[i]));
    hide Mirrors, ReportsError;
  }

  /** A fresh plan ends as completed, failed or partial failure exactly by what the model was told:
      no error, nothing but errors, or both. */
  lemma PlanEndsAsToldExactly(host: Host, s: Script)
    ensures var (end, replies) := (FinalStatus(Steps(host, s, Executed(s, 0))), Replies(Added(host, s)));
            && (end == Completed <==> !SomeError(replies))
            && (end == AllFailed <==> SomeError(replies) && !SomeFine(replies))
            && (end == PartialFailure <==> SomeError(replies) && SomeFine(replies))
  {
    PlanMirrorsConversation(host, s);
    var steps, turns := Steps(host, s, Executed(s, 0)), Added(host, s);
    hide *;
    FinalStatusExactly(steps);
    MirrorStatuses(steps, Requested(turns)[..|steps|], Replies(turns));
  }
}
