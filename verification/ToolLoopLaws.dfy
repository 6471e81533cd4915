/** What `_run_tool_loop` of mcp-host/llm.py tells the model, the user and the plan, call by call and at
    the end. */
module ToolLoopLaws {
  import opened Options
  import opened Json
  import opened ToolLoop

  // ---------- One call ----------

  /** The role is not allowed the tool: the model is told so, without the call's identifier, and the step
      fails with the same message. */
  predicate ToldForbidden(role: string, call: Part, response: Part, step: StepRecord)
    requires call.FunctionCall?
  {
    var message := Str("Tool '" + call.name + "' is not available for role '" + role + "'");
    && response.FunctionResponse? && response.id == "" && response.name == call.name
    && response.response.Keys == {"error"} && response.response["error"].Obj?
    && response.response["error"].fields.Keys == {"code", "message", "suggestion"}
    && response.response["error"].fields["code"] == Str("forbidden_tool")
    && response.response["error"].fields["message"] == message
    && response.response["error"].fields["suggestion"] ==
       Str("Choose a different tool that fits your role permissions.")
    && step == StepRecord(call.name, call.args, Failed, None, Some(message))
  }

  /** The tool ran: its result is passed on under the call's identifier, and the step ends with it. */
  predicate ToldResult(result: Json, call: Part, response: Part, step: StepRecord)
    requires call.FunctionCall?
  {
    && response == FunctionResponse(call.id, call.name, map["result" := result])
    && (match result
        case Obj(fields) =>
          if "error" in fields then step == StepRecord(call.name, call.args, Failed, None, Some(fields["error"]))
          else step == StepRecord(call.name, call.args, Success, Some(fields), None)
        case _ => step == StepRecord(call.name, call.args, Success, Some(map["result" := result]), None))
  }

  /** The loop guard stopped the call: its notice takes the place of the result. */
  predicate ToldLooping(notice: LoopNotice, call: Part, response: Part, step: StepRecord)
    requires call.FunctionCall?
  {
    var error := Obj(map["code" := Str("loop_detected"), "message" := Str(notice.message),
                         "suggestion" := Str(notice.suggestion), "occurrences" := Num(notice.occurrences as real)]);
    && response == FunctionResponse(call.id, call.name, map["result" := Obj(map["error" := error])])
    && step == StepRecord(call.name, call.args, Failed, None, Some(error))
  }

  predicate Handled(host: Host, call: Part, o: Outcome, response: Part, step: StepRecord)
    requires call.FunctionCall?
  {
    if host.role != "" && !host.allowed(call.name, host.role) then ToldForbidden(host.role, call, response, step)
    else if o.loop == None then ToldResult(o.result, call, response, step)
    else ToldLooping(o.loop.value, call, response, step)
  }

  /** A call is refused exactly when there is a role and it does not allow the tool. Otherwise the loop guard
      has its say, and otherwise the tool's result is passed on. */
  lemma CallIsHandled(host: Host, call: Part, o: Outcome)
    requires call.FunctionCall?
    ensures Handled(host, call, o, ResponseTo(host, call, o), StepOf(host, call, o))
    ensures "error" in ResponseTo(host, call, o).response <==>
            host.role != "" && !host.allowed(call.name, host.role)
  {
  }

  // ---------- Which calls there are ----------

  /** The calls of a turn are its parts that are calls, in order. */
  lemma CallsAre(parts: seq<Part>, part: Part)
    ensures Calls([]) == []
    ensures Calls(parts + [part]) == Calls(parts) + if part.FunctionCall? then [part] else []
  {
    assert (parts + [part])[..|parts|] == parts;
  }

  predicate AsksForTools(content: Turn) {
    content.Turn? && exists i | 0 <= i < |content.parts| :: content.parts[i].FunctionCall?
  }

  lemma {:induction false} SomeCall(parts: seq<Part>)
    ensures Calls(parts) != [] <==> exists i | 0 <= i < |parts| :: parts[i].FunctionCall?
  {
    if parts != [] {
      var n := |parts| - 1;
      SomeCall(parts[..n]);
      assert forall i | 0 <= i < n :: parts[..n][i] == parts[i];
    }
  }

  /** The rounds that make tool calls are those before the first one in which the budget is exhausted or the
      model asks for no tool, and all of them if there is none. */
  lemma RoundsExactly(s: Script, n: nat)
    ensures n == Executed(s, 0) <==>
            && n <= s.maxRounds
            && (forall r | 0 <= r < n :: s.rounds(r).exceeded == None && AsksForTools(s.rounds(r).content))
            && (n < s.maxRounds ==> s.rounds(n).exceeded != None || !AsksForTools(s.rounds(n).content))
  {
    forall r: nat
      ensures GoesOn(s.rounds(r)) <==> s.rounds(r).exceeded == None && AsksForTools(s.rounds(r).content)
    {
      if s.rounds(r).content.Turn? { SomeCall(s.rounds(r).content.parts); }
    }
    hide GoesOn, AsksForTools;
    var m := Executed(s, 0);
    if n < m {
      assert GoesOn(s.rounds(n));
    } else if m < n <= s.maxRounds {
      assert !GoesOn(s.rounds(m));
    }
  }

  /** How many calls the first `r` rounds ask for. */
  function CallsBefore(s: Script, r: nat): nat {
    if r == 0 then 0 else CallsBefore(s, r - 1) + |CallsIn(s.rounds(r - 1).content)|
  }

  lemma {:induction false} StepAt(host: Host, s: Script, n: nat, r: nat, k: nat)
    requires r < n && k < |CallsIn(s.rounds(r).content)|
    ensures |Steps(host, s, n)| == CallsBefore(s, n) && CallsBefore(s, r) + k < CallsBefore(s, n)
    ensures var round := s.rounds(r);
            Steps(host, s, n)[CallsBefore(s, r) + k] == StepOf(host, CallsIn(round.content)[k], round.outcome(k))
  {
    hide StepOf, CallsIn;
    StepsLength(host, s, n);
    StepsLength(host, s, n - 1);
    if r < n - 1 {
      StepAt(host, s, n - 1, r, k);
    }
  }

  lemma {:induction false} StepsLength(host: Host, s: Script, n: nat)
    ensures |Steps(host, s, n)| == CallsBefore(s, n)
  {
    if n > 0 { StepsLength(host, s, n - 1); }
  }

  /** Each round with tool calls adds what the model said and one user turn that answers its calls, and the
      plan gets one step for each call; every one of these calls is handled as it should be. */
  lemma EveryCallIsHandled(host: Host, s: Script, r: nat, k: nat)
    requires r < Executed(s, 0) && k < |CallsIn(s.rounds(r).content)|
    ensures var (added, steps, calls) := (Added(host, s), Steps(host, s, Executed(s, 0)), CallsIn(s.rounds(r).content));
            && 2 * r + 1 < |added| && |steps| == CallsBefore(s, Executed(s, 0)) && CallsBefore(s, r) + k < |steps|
            && added[2 * r] == s.rounds(r).content
            && added[2 * r + 1].Turn? && added[2 * r + 1].role == User && |added[2 * r + 1].parts| == |calls|
            && Handled(host, calls[k], s.rounds(r).outcome(k), added[2 * r + 1].parts[k], steps[CallsBefore(s, r) + k])
  {
    var n := Executed(s, 0);
    TurnAt(host, s, n, r);
    StepAt(host, s, n, r, k);
    CallIsHandled(host, CallsIn(s.rounds(r).content)[k], s.rounds(r).outcome(k));
    hide Handled, CallsIn, StepOf, ResponseTo, Executed, Turns, Steps, CallsBefore;
  }

  // ---------- The end ----------

  /** After the rounds with tool calls: out of rounds, the model is asked to sum up and its answer is shown.
      Otherwise the round that ended the loop shows the budget's message or the text for an empty answer,
      and adds nothing, or it adds and shows what the model said. */
  lemma EndExactly(host: Host, s: Script)
    ensures var (n, added) := (Executed(s, 0), Added(host, s));
            && 2 * n <= |added|
            && (n == s.maxRounds ==>
                  && added[2 * n..] ==
                     [Turn(User, [Text("Please summarize the results so far and provide your final answer.")]), s.final]
                  && FinalText(s) == ExtractText(s.final))
            && (n < s.maxRounds ==>
                  var round := s.rounds(n);
                  if round.exceeded != None then added[2 * n..] == [] && FinalText(s) == round.exceeded.value
                  else if round.content == NoContent || round.content.parts == [] then
                    added[2 * n..] == [] && FinalText(s) == round.fallback
                  else added[2 * n..] == [round.content] && FinalText(s) == ExtractText(round.content))
  {
    TurnsLength(host, s, Executed(s, 0));
    hide Executed, Turns, ExtractText;
  }

  /** What is shown of an answer is its texts, but for empty ones, with line breaks between them. */
  lemma TextOfTurn(role: Role, parts: seq<Part>, part: Part)
    ensures ExtractText(NoContent) == ExtractText(Turn(role, [])) == "(No text response)"
    ensures !part.Text? || part.text == "" ==>
              ExtractText(Turn(role, [part] + parts)) == ExtractText(Turn(role, parts))
    ensures part.Text? && part.text != "" ==>
              ExtractText(Turn(role, [part] + parts)) ==
              if HasText(parts) then part.text + "\n" + ExtractText(Turn(role, parts)) else part.text
  {
    TextsExist(parts);
    assert ([part] + parts)[1..] == parts;
    var texts := Texts(parts);
    assert [] + texts == texts;
    if part.Text? {
      assert ([part.text] + texts)[1..] == texts;
    }
  }

  predicate HasText(parts: seq<Part>) {
    exists i | 0 <= i < |parts| :: parts[i].Text? && parts[i].text != ""
  }

  lemma {:induction false} TextsExist(parts: seq<Part>)
    ensures Texts(parts) != [] <==> HasText(parts)
  {
    if parts != [] {
      TextsExist(parts[1..]);
      assert forall i | 1 <= i < |parts| :: parts[i] == parts[1..][i - 1];
      assert forall i | 0 <= i < |parts| - 1 :: parts[1..][i] == parts[i + 1];
    }
  }
}
