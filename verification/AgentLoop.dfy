/** The tool loop of an agent turn (store/app/ai/runner.py) against a model, tools and providers that
    may answer anything. */
module AgentLoop {
  import opened Common

  const CREATE_ORDER := "create_order"
  const ESCALATE := "escalate_to_human"
  const HANDOFF := "request_agent_handoff"
  const WHATSAPP := "send_whatsapp_handoff"

  datatype Args = Args(productName: string, rest: string)

  datatype Call = Call(id: string, name: string, args: Args)

  /** A tool result: its `status` and `type`, its target agent, and the rest. */
  datatype ToolResult = ToolResult(status: string, kind: string, target: Option<string>, duplicate: bool,
                                   details: string)

  datatype Reply = Reply(text: string, calls: seq<Call>)

  /** How the model is asked to go on: the current provider answers, or the fallback, or neither. */
  datatype Continuation = Current(reply: Reply) | Fallback(reply: Reply) | NoProvider(text: string)

  /** What the outside does in one round: the tool's answer if it runs, the product name found for a
      handoff, and the model's continuation. */
  datatype Turn = Turn(result: ToolResult, product: Option<string>, next: Continuation)

  datatype Entry = Entry(name: string, args: Args, result: ToolResult)

  datatype Exchange = Exchange(id: string, call: Entry)

  /** The server-owned side of a run. `allowed` is already filtered by channel. */
  datatype Config = Config(allowed: set<string>, maxRounds: nat, proofTurn: bool, buttonChannel: bool, required: bool)

  /** The variables of the loop; `executed` is history: the tools that really ran, in order. */
  datatype State = State(
    reply: Reply,
    rounds: nat,
    log: seq<Entry>,
    history: seq<Exchange>,
    singles: map<string, ToolResult>,
    executed: seq<Entry>,
    requestedHandoff: bool,
    target: Option<string>,
    escalated: bool,
    wasFallback: bool,
    buttons: Option<ToolResult>,
    pdf: Option<ToolResult>,
    image: Option<ToolResult>,
    whatsapp: Option<ToolResult>)

  /** Tools with a side effect that may succeed only once. */
  predicate SingleUse(name: string) {
    name in {CREATE_ORDER, "update_payment_status", "finalize_checkout", ESCALATE, HANDOFF, WHATSAPP}
  }

  predicate Failed(r: ToolResult) {
    r.status == "error"
  }

  function Refusal(message: string): ToolResult {
    ToolResult("error", "", None, false, message)
  }

  /** The call of this round really runs. */
  predicate Runs(cfg: Config, s: State, name: string) {
    name in cfg.allowed && name !in s.singles && !(name == CREATE_ORDER && cfg.proofTurn)
  }

  function ArgsOf(call: Call, runs: bool, product: Option<string>): Args {
    if runs && call.name == WHATSAPP && call.args.productName == "" && product.Some?
    then call.args.(productName := product.value)
    else call.args
  }

  function ResultOf(cfg: Config, s: State, name: string, answer: ToolResult): ToolResult {
    if name !in cfg.allowed then Refusal("not authorized")
    else if name in s.singles then s.singles[name].(duplicate := true, details := "duplicate ignored")
    else if name == CREATE_ORDER && cfg.proofTurn then Refusal("payment proof")
    else answer
  }

  function NextReply(next: Continuation): Reply {
    if next.NoProvider? then Reply(next.text, []) else next.reply
  }

  /** One round: the first call of the reply, and the reply after it. */
  function Round(cfg: Config, s: State, turn: Turn): State
    requires s.reply.calls != []
  {
    var call := s.reply.calls[0];
    var name := call.name;
    var runs := Runs(cfg, s, name);
    var result := ResultOf(cfg, s, name, turn.result);
    var entry := Entry(name, ArgsOf(call, runs, turn.product), result);
    var authorized := name in cfg.allowed;
    var toAgent := name == HANDOFF && result.kind == "agent_handoff";
    var toWhatsapp := name == WHATSAPP && result.kind == "whatsapp_handoff";
    State(
      NextReply(turn.next),
      s.rounds + 1,
      s.log + [entry],
      s.history + [Exchange(call.id, entry)],
      if runs && SingleUse(name) && !Failed(result) then s.singles[name := result] else s.singles,
      if runs then s.executed + [entry] else s.executed,
      s.requestedHandoff || name == ESCALATE || toAgent || toWhatsapp,
      if toWhatsapp then Some("whatsapp") else if toAgent then result.target else s.target,
      if name == ESCALATE then result.status == "escalated" else s.escalated,
      s.wasFallback || !turn.next.Current?,
      if authorized && name == "send_interactive_buttons" && cfg.buttonChannel then Some(result) else s.buttons,
      if authorized && name == "send_catalog_pdf" && result.kind == "catalog_pdf" then Some(result) else s.pdf,
      if authorized && name == "send_product_image" && result.kind == "product_image" then Some(result) else s.image,
      if authorized && toWhatsapp then Some(result) else s.whatsapp)
  }

  function Start(reply: Reply, wasFallback: bool): State {
    State(reply, 0, [], [], map[], [], false, None, false, wasFallback, None, None, None, None)
  }

  /** The loop, against any script of the outside. */
  function Loop(cfg: Config, s: State, script: nat -> Turn): State
    decreases Max(cfg.maxRounds - s.rounds, 0)
  {
    if s.reply.calls != [] && s.rounds < cfg.maxRounds then Loop(cfg, Round(cfg, s, script(s.rounds)), script) else s
  }

  predicate MustHandOff(cfg: Config, s: State) {
    cfg.required && s.whatsapp.None? && WHATSAPP in cfg.allowed
  }

  /** After the loop: the handoff the server itself requires. */
  function Finish(cfg: Config, s: State, args: Args, result: ToolResult): State {
    if !MustHandOff(cfg, s) then s
    else
      var entry := Entry(WHATSAPP, args, result);
      var t := s.(log := s.log + [entry], executed := s.executed + [entry]);
      if result.kind == "whatsapp_handoff"
      then t.(whatsapp := Some(result), requestedHandoff := true, target := Some("whatsapp"))
      else t
  }

  // ---------------------------------------------------------------- the loop as it is written

  method Run(cfg: Config, first: Reply, firstFallback: bool, script: nat -> Turn, lastArgs: Args,
             lastResult: ToolResult)
      returns (s: State)
    ensures s == Finish(cfg, Loop(cfg, Start(first, firstFallback), script), lastArgs, lastResult)
  {
    hide Round;
    s := Start(first, firstFallback);
    while s.reply.calls != [] && s.rounds < cfg.maxRounds
      invariant s.rounds <= cfg.maxRounds
      invariant Loop(cfg, s, script) == Loop(cfg, Start(first, firstFallback), script)
      decreases cfg.maxRounds - s.rounds
    {
      RoundCounts(cfg, s, script(s.rounds));
      s := OneRound(cfg, s, script(s.rounds));
    }
    if cfg.required && s.whatsapp.None? && WHATSAPP in cfg.allowed {
      var entry := Entry(WHATSAPP, lastArgs, lastResult);
      s := s.(log := s.log + [entry], executed := s.executed + [entry]);
      if lastResult.kind == "whatsapp_handoff" {
        s := s.(whatsapp := Some(lastResult), requestedHandoff := true, target := Some("whatsapp"));
      }
    }
  }

  lemma RoundCounts(cfg: Config, s: State, turn: Turn)
    requires s.reply.calls != []
    ensures Round(cfg, s, turn).rounds == s.rounds + 1
  {
  }

  /** The body of the loop, statement by statement. */
  method OneRound(cfg: Config, before: State, turn: Turn) returns (s: State)
    requires before.reply.calls != []
    ensures s == Round(cfg, before, turn)
  {
    hide ResultOf, ArgsOf, Runs, SingleUse;
    var result: ToolResult, args: Args;
    s, result, args := CallTool(cfg, before, turn);
    var call := before.reply.calls[0];
    s := Recorded(cfg, s, call.id, Entry(call.name, args, result));
    s := s.(reply := NextReply(turn.next), wasFallback := s.wasFallback || !turn.next.Current?);
  }

  /** Authorization, the duplicate and proof checks, and the call itself. */
  method CallTool(cfg: Config, before: State, turn: Turn) returns (s: State, result: ToolResult, args: Args)
    requires before.reply.calls != []
    ensures s == Executed(cfg, before, turn)
    ensures var call := before.reply.calls[0];
      && result == ResultOf(cfg, before, call.name, turn.result)
      && args == ArgsOf(call, Runs(cfg, before, call.name), turn.product)
  {
    hide SingleUse;
    s := before.(rounds := before.rounds + 1);
    var name := before.reply.calls[0].name;
    args := before.reply.calls[0].args;
    if name !in cfg.allowed {
      result := Refusal("not authorized");
    } else if name in s.singles {
      result := s.singles[name].(duplicate := true, details := "duplicate ignored");
    } else if name == CREATE_ORDER && cfg.proofTurn {
      result := Refusal("payment proof");
    } else {
      if name == WHATSAPP && args.productName == "" && turn.product.Some? {
        args := args.(productName := turn.product.value);
      }
      result := turn.result;
      s := s.(executed := s.executed + [Entry(name, args, result)]);
      if SingleUse(name) && result.status != "error" {
        s := s.(singles := s.singles[name := result]);
      }
    }
  }

  /** After the tool has run or not. */
  function Executed(cfg: Config, s: State, turn: Turn): State
    requires s.reply.calls != []
  {
    var call := s.reply.calls[0];
    var runs := Runs(cfg, s, call.name);
    var result := ResultOf(cfg, s, call.name, turn.result);
    s.(rounds := s.rounds + 1,
       executed := if runs then s.executed + [Entry(call.name, ArgsOf(call, runs, turn.product), result)]
           else s.executed,
       singles := if runs && SingleUse(call.name) && !Failed(result) then s.singles[call.name := result] else s.singles)
  }

  /** The flags, the log and the payloads of one result. */
  method Recorded(cfg: Config, before: State, id: string, entry: Entry) returns (s: State)
    ensures var name, result := entry.name, entry.result;
      var authorized := name in cfg.allowed;
      var toAgent := name == HANDOFF && result.kind == "agent_handoff";
      var toWhatsapp := name == WHATSAPP && result.kind == "whatsapp_handoff";
      s == before.(log := before.log + [entry], history := before.history + [Exchange(id, entry)],
                   requestedHandoff := before.requestedHandoff || name == ESCALATE || toAgent || toWhatsapp,
                   target := if toWhatsapp then Some("whatsapp") else if toAgent then result.target else before.target,
                   escalated := if name == ESCALATE then result.status == "escalated" else before.escalated,
                   buttons := if authorized && name == "send_interactive_buttons" && cfg.buttonChannel
                       then Some(result) else before.buttons,
                   pdf := if authorized && name == "send_catalog_pdf" && result.kind == "catalog_pdf"
                       then Some(result) else before.pdf,
                   image := if authorized && name == "send_product_image" && result.kind == "product_image"
                       then Some(result) else before.image,
                   whatsapp := if authorized && toWhatsapp then Some(result) else before.whatsapp)
  {
    s := before;
    var name, result := entry.name, entry.result;
    var authorized := name in cfg.allowed;
    if name == ESCALATE {
      s := s.(requestedHandoff := true, escalated := result.status == "escalated");
    }
    if name == HANDOFF && result.kind == "agent_handoff" {
      s := s.(requestedHandoff := true, target := result.target);
    }
    if name == WHATSAPP && result.kind == "whatsapp_handoff" {
      s := s.(requestedHandoff := true, target := Some("whatsapp"));
    }
    s := s.(log := s.log + [entry], history := s.history + [Exchange(id, entry)]);
    if authorized && name == "send_interactive_buttons" && cfg.buttonChannel {
      s := s.(buttons := Some(result));
    }
    if authorized && name == "send_catalog_pdf" && result.kind == "catalog_pdf" {
      s := s.(pdf := Some(result));
    }
    if authorized && name == "send_product_image" && result.kind == "product_image" {
      s := s.(image := Some(result));
    }
    if authorized && name == WHATSAPP && result.kind == "whatsapp_handoff" {
      s := s.(whatsapp := Some(result));
    }
  }

  // ---------------------------------------------------------------- what every run keeps

  /** Log and history tell the same story, round by round. */
  predicate Aligned(s: State) {
    |s.log| == s.rounds && |s.history| == s.rounds
    && forall i :: 0 <= i < s.rounds ==> s.history[i].call == s.log[i]
  }

  /** Only tools of the filtered allowlist run, and no order is created on a payment-proof turn. */
  predicate Authorized(cfg: Config, executed: seq<Entry>) {
    forall i :: 0 <= i < |executed| ==>
      executed[i].name in cfg.allowed && !(executed[i].name == CREATE_ORDER && cfg.proofTurn)
  }

  predicate SucceededAt(executed: seq<Entry>, name: string, i: int) {
    0 <= i < |executed| && executed[i].name == name && !Failed(executed[i].result)
  }

  /** A single-use tool that succeeded does not run again. */
  predicate OnceOnly(executed: seq<Entry>) {
    forall i, j :: 0 <= i < j < |executed| && executed[i].name == executed[j].name && SingleUse(executed[i].name) ==>
      Failed(executed[i].result)
  }

  /** The remembered results are those of the single-use tools that succeeded. */
  ghost predicate Remembered(s: State) {
    && (forall name :: name in s.singles ==>
          SingleUse(name) && exists i :: SucceededAt(s.executed, name, i) && s.executed[i].result == s.singles[name])
    && (forall i :: 0 <= i < |s.executed| && SingleUse(s.executed[i].name) && !Failed(s.executed[i].result) ==>
          s.executed[i].name in s.singles)
  }

  predicate EscalatedAt(executed: seq<Entry>, i: int) {
    0 <= i < |executed| && executed[i].name == ESCALATE && executed[i].result.status == "escalated"
  }

  /** The run counts as escalated exactly when the tool ran and said so. */
  ghost predicate EscalationTrue(s: State) {
    s.escalated <==> exists i :: EscalatedAt(s.executed, i)
  }

  ghost predicate Good(cfg: Config, s: State) {
    s.rounds <= cfg.maxRounds && Aligned(s) && Authorized(cfg, s.executed) && OnceOnly(s.executed) && Remembered(s)
    && EscalationTrue(s)
  }

  lemma RoundAligned(cfg: Config, s: State, turn: Turn)
    requires s.reply.calls != [] && Aligned(s) && Authorized(cfg, s.executed)
    ensures Aligned(Round(cfg, s, turn)) && Authorized(cfg, Round(cfg, s, turn).executed)
  {
  }

  lemma RoundExecuted(cfg: Config, s: State, turn: Turn)
    requires s.reply.calls != []
    ensures var t := Round(cfg, s, turn);
      var name := s.reply.calls[0].name;
      if Runs(cfg, s, name)
      then |t.executed| == |s.executed| + 1 && t.executed[..|s.executed|] == s.executed
           && t.executed[|s.executed|].name == name && t.executed[|s.executed|].result == turn.result
           && t.singles
                == (if SingleUse(name) && !Failed(turn.result) then s.singles[name := turn.result] else s.singles)
      else t.executed == s.executed && t.singles == s.singles
  {
  }

  lemma Extends(before: seq<Entry>, after: seq<Entry>)
    requires |after| == |before| + 1 && after[..|before|] == before
    ensures forall i :: 0 <= i < |before| ==> after[i] == before[i]
  {
    forall i | 0 <= i < |before|
      ensures after[i] == before[i]
    {
      assert after[..|before|][i] == before[i];
    }
  }

  lemma RoundOnce(cfg: Config, s: State, turn: Turn)
    requires s.reply.calls != [] && OnceOnly(s.executed) && Remembered(s)
    ensures OnceOnly(Round(cfg, s, turn).executed)
  {
    RoundExecuted(cfg, s, turn);
    var t := Round(cfg, s, turn);
    hide Round, ResultOf, SingleUse, Failed;
    if Runs(cfg, s, s.reply.calls[0].name) {
      Extends(s.executed, t.executed);
    }
  }

  lemma RoundRemembers(cfg: Config, s: State, turn: Turn)
    requires s.reply.calls != [] && Remembered(s)
    ensures Remembered(Round(cfg, s, turn))
  {
    RoundExecuted(cfg, s, turn);
    var t := Round(cfg, s, turn);
    hide Round, ResultOf, SingleUse, Failed;
    if Runs(cfg, s, s.reply.calls[0].name) {
      var n := |s.executed|;
      Extends(s.executed, t.executed);
      forall name | name in t.singles
        ensures SingleUse(name) && exists i ::
            SucceededAt(t.executed, name, i) && t.executed[i].result == t.singles[name]
      {
        if name in s.singles {
          var i :| SucceededAt(s.executed, name, i) && s.executed[i].result == s.singles[name];
          assert SucceededAt(t.executed, name, i);
        } else {
          assert SucceededAt(t.executed, name, n);
        }
      }
    }
  }

  /** Whether an escalation happened can be read off the remembered result. */
  lemma EscalationRemembered(s: State)
    requires OnceOnly(s.executed) && Remembered(s)
    ensures ESCALATE in s.singles ==>
              (s.singles[ESCALATE].status == "escalated" <==> exists i :: EscalatedAt(s.executed, i))
    ensures ESCALATE !in s.singles ==> forall i :: !EscalatedAt(s.executed, i)
  {
    if ESCALATE in s.singles {
      var k :| SucceededAt(s.executed, ESCALATE, k) && s.executed[k].result == s.singles[ESCALATE];
      assert s.singles[ESCALATE].status == "escalated" ==> EscalatedAt(s.executed, k);
    }
  }

  lemma RoundEscalation(cfg: Config, s: State, turn: Turn)
    requires s.reply.calls != [] && Good(cfg, s)
    ensures EscalationTrue(Round(cfg, s, turn))
  {
    EscalationRemembered(s);
    RoundExecuted(cfg, s, turn);
    var t := Round(cfg, s, turn);
    var name := s.reply.calls[0].name;
    assert t.escalated == if name == ESCALATE then ResultOf(cfg, s, name, turn.result).status == "escalated"
        else s.escalated;
    hide Round, OnceOnly, Remembered, Aligned;
    if Runs(cfg, s, name) {
      Extends(s.executed, t.executed);
      hide Authorized;
      if i :| EscalatedAt(s.executed, i) {
        assert EscalatedAt(t.executed, i);
      }
      assert name == ESCALATE && turn.result.status == "escalated" ==> EscalatedAt(t.executed, |s.executed|);
    } else if name !in cfg.allowed && name == ESCALATE {
      assert forall i :: !EscalatedAt(t.executed, i);
    }
  }

  lemma RoundKeeps(cfg: Config, s: State, turn: Turn)
    requires s.reply.calls != [] && s.rounds < cfg.maxRounds && Good(cfg, s)
    ensures Good(cfg, Round(cfg, s, turn))
  {
    RoundCounts(cfg, s, turn);
    RoundAligned(cfg, s, turn);
    RoundOnce(cfg, s, turn);
    RoundRemembers(cfg, s, turn);
    RoundEscalation(cfg, s, turn);
    hide Round, Aligned, Authorized, OnceOnly, Remembered, EscalationTrue;
  }

  lemma {:induction false} LoopKeeps(cfg: Config, s: State, script: nat -> Turn)
    requires Good(cfg, s)
    ensures Good(cfg, Loop(cfg, s, script))
    decreases Max(cfg.maxRounds - s.rounds, 0)
  {
    hide Round, Good;
    if s.reply.calls != [] && s.rounds < cfg.maxRounds {
      RoundKeeps(cfg, s, script(s.rounds));
      RoundCounts(cfg, s, script(s.rounds));
      LoopKeeps(cfg, Round(cfg, s, script(s.rounds)), script);
    }
  }

  lemma StartIsGood(cfg: Config, reply: Reply, wasFallback: bool)
    ensures Good(cfg, Start(reply, wasFallback))
  {
  }

  /** Whatever the model, the tools and the providers answer: at most `maxRounds` rounds, nothing
      outside the allowlist, no single-use tool again once it succeeded, no order on a proof turn, log
      and history aligned, and escalated exactly when the tool ran and said so. */
  lemma TurnKeeps(cfg: Config, first: Reply, firstFallback: bool, script: nat -> Turn)
    ensures Good(cfg, Loop(cfg, Start(first, firstFallback), script))
  {
    StartIsGood(cfg, first, firstFallback);
    hide *;
    LoopKeeps(cfg, Start(first, firstFallback), script);
  }

  /** The required handoff keeps to the allowlist too, but runs a handoff that already succeeded again
      exactly when that one was remembered without producing a payload. */
  lemma FinishRepeatsExactly(cfg: Config, s: State, args: Args, result: ToolResult)
    requires Good(cfg, s)
    ensures Authorized(cfg, Finish(cfg, s, args, result).executed)
    ensures OnceOnly(Finish(cfg, s, args, result).executed) <==> !(MustHandOff(cfg, s) && WHATSAPP in s.singles)
  {
    var t := Finish(cfg, s, args, result);
    var n := |s.executed|;
    if MustHandOff(cfg, s) {
      assert forall i :: 0 <= i < n ==> t.executed[i] == s.executed[i];
      assert t.executed[n].name == WHATSAPP;
      if WHATSAPP in s.singles {
        var i :| SucceededAt(s.executed, WHATSAPP, i);
        assert t.executed[i].name == t.executed[n].name && !Failed(t.executed[i].result);
      }
    }
  }

  /** The handoff tool, if this reply calls it, answers an error or a handoff. */
  predicate AnswersHandoff(reply: Reply, turn: Turn) {
    reply.calls != [] && reply.calls[0].name == WHATSAPP ==>
      Failed(turn.result) || turn.result.kind == "whatsapp_handoff"
  }

  /** A handoff that succeeded has left its payload. */
  predicate HandoffKept(s: State) {
    WHATSAPP in s.singles ==> s.singles[WHATSAPP].kind == "whatsapp_handoff" && s.whatsapp.Some?
  }

  lemma RoundKeepsHandoff(cfg: Config, s: State, turn: Turn)
    requires s.reply.calls != [] && AnswersHandoff(s.reply, turn) && HandoffKept(s)
    ensures HandoffKept(Round(cfg, s, turn)) && Round(cfg, s, turn).reply == NextReply(turn.next)
  {
  }

  lemma {:induction false} LoopKeepsHandoff(cfg: Config, s: State, script: nat -> Turn)
    requires HandoffKept(s) && AnswersHandoff(s.reply, script(s.rounds))
    requires forall k: nat :: k >= s.rounds ==> AnswersHandoff(NextReply(script(k).next), script(k + 1))
    ensures HandoffKept(Loop(cfg, s, script))
    decreases Max(cfg.maxRounds - s.rounds, 0)
  {
    hide Round, AnswersHandoff, HandoffKept;
    if s.reply.calls != [] && s.rounds < cfg.maxRounds {
      RoundKeepsHandoff(cfg, s, script(s.rounds));
      RoundCounts(cfg, s, script(s.rounds));
      LoopKeepsHandoff(cfg, Round(cfg, s, script(s.rounds)), script);
    }
  }

  /** With a handoff tool that answers nothing but errors and handoffs, as the one of the store does,
      no turn runs a single-use tool again once it succeeded, the required handoff included. */
  lemma HandoffNeverRepeats(cfg: Config, first: Reply, firstFallback: bool, script: nat -> Turn, args: Args,
                            result: ToolResult)
    requires AnswersHandoff(first, script(0))
    requires forall k: nat :: AnswersHandoff(NextReply(script(k).next), script(k + 1))
    ensures OnceOnly(Finish(cfg, Loop(cfg, Start(first, firstFallback), script), args, result).executed)
  {
    var s := Start(first, firstFallback);
    LoopKeepsHandoff(cfg, s, script);
    TurnKeeps(cfg, first, firstFallback, script);
    var t := Loop(cfg, s, script);
    FinishRepeatsExactly(cfg, t, args, result);
    hide Loop, Finish, OnceOnly;
  }

  /** With another tool it can: a turn whose handoff succeeds without a payload runs it twice. */
  lemma HandoffRepeats()
    ensures var cfg := Config({WHATSAPP}, 1, false, false, true);
      var ask := Reply("", [Call("1", WHATSAPP, Args("", ""))]);
      var done := ToolResult("", "", None, false, "");
      var script: nat -> Turn := _ => Turn(done, None, Current(Reply("", [])));
      !OnceOnly(Finish(cfg, Loop(cfg, Start(ask, false), script), Args("", ""), done).executed)
  {
    var cfg := Config({WHATSAPP}, 1, false, false, true);
    var ask := Reply("", [Call("1", WHATSAPP, Args("", ""))]);
    var done := ToolResult("", "", None, false, "");
    var script: nat -> Turn := _ => Turn(done, None, Current(Reply("", [])));
    var s := Start(ask, false);
    assert Loop(cfg, s, script) == Round(cfg, s, script(0));
    TurnKeeps(cfg, ask, false, script);
    FinishRepeatsExactly(cfg, Loop(cfg, s, script), Args("", ""), done);
    hide Loop, OnceOnly, Good, Finish;
  }
}
