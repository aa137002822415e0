/** A turn of the agent in terms of what the model, the tools and the providers answered: which calls
    were made, which tools ran, and what came of their results. */
module AgentTrace {
  import opened Common
  import opened AgentLoop

  // ---------------------------------------------------------------- the model's replies

  /** The reply the k-th round starts from: the first one, then the answer of the provider that went on;
      without one, a text and no calls. */
  function ReplyAt(first: Reply, script: nat -> Turn, k: nat): Reply {
    if k == 0 then first
    else
      match script(k - 1).next
      case Current(reply) => reply
      case Fallback(reply) => reply
      case NoProvider(text) => Reply(text, [])
  }

  predicate MadeAt(s: State, first: Reply, script: nat -> Turn, k: nat)
    requires k < |s.log| && k < |s.history|
  {
    var reply := ReplyAt(first, script, k);
    && reply.calls != []
    && s.history[k] == Exchange(reply.calls[0].id, s.log[k])
    && s.log[k].name == reply.calls[0].name && s.log[k].args.rest == reply.calls[0].args.rest
    && (s.log[k].args.productName != reply.calls[0].args.productName ==>
          && s.log[k].name == "send_whatsapp_handoff" && reply.calls[0].args.productName == ""
          && script(k).product == Some(s.log[k].args.productName))
  }

  /** Each round so far made the first call of the reply before it, and its reply is the next. */
  ghost predicate Follows(cfg: Config, first: Reply, firstFallback: bool, script: nat -> Turn, s: State) {
    && s.rounds <= cfg.maxRounds && |s.log| == s.rounds && |s.history| == s.rounds
    && s.reply == ReplyAt(first, script, s.rounds)
    && (forall k :: 0 <= k < s.rounds ==> MadeAt(s, first, script, k))
    && (s.wasFallback <==> firstFallback || exists k :: 0 <= k < s.rounds && !script(k).next.Current?)
  }

  lemma RoundMakes(cfg: Config, s: State, turn: Turn)
    requires s.reply.calls != []
    ensures var t := Round(cfg, s, turn);
      var call := s.reply.calls[0];
      && |t.log| == |s.log| + 1 && t.log[..|s.log|] == s.log
      && t.history == s.history + [Exchange(call.id, t.log[|s.log|])]
      && t.log[|s.log|].name == call.name && t.log[|s.log|].args.rest == call.args.rest
      && (t.log[|s.log|].args.productName != call.args.productName ==>
            && call.name == "send_whatsapp_handoff" && call.args.productName == ""
            && turn.product == Some(t.log[|s.log|].args.productName))
      && t.rounds == s.rounds + 1
      && (t.wasFallback <==> s.wasFallback || !turn.next.Current?)
  {
  }

  lemma RoundReplies(cfg: Config, s: State, first: Reply, script: nat -> Turn)
    requires s.reply.calls != []
    ensures Round(cfg, s, script(s.rounds)).reply == ReplyAt(first, script, s.rounds + 1)
  {
  }

  lemma RoundFollows(cfg: Config, first: Reply, firstFallback: bool, script: nat -> Turn, s: State)
    requires s.reply.calls != [] && s.rounds < cfg.maxRounds && Follows(cfg, first, firstFallback, script, s)
    ensures Follows(cfg, first, firstFallback, script, Round(cfg, s, script(s.rounds)))
  {
    RoundMakes(cfg, s, script(s.rounds));
    RoundReplies(cfg, s, first, script);
    hide Round, ReplyAt;
    var t := Round(cfg, s, script(s.rounds));
    forall k | 0 <= k < t.rounds
      ensures MadeAt(t, first, script, k)
    {
      if k < s.rounds {
        assert MadeAt(s, first, script, k);
        assert t.log[..|s.log|][k] == t.log[k] && t.history[k] == s.history[k];
      }
    }
  }

  lemma {:induction false} LoopFollows(cfg: Config, first: Reply, firstFallback: bool, script: nat -> Turn, s: State)
    requires Follows(cfg, first, firstFallback, script, s)
    ensures var t := Loop(cfg, s, script);
      Follows(cfg, first, firstFallback, script, t) && (t.rounds == cfg.maxRounds || t.reply.calls == [])
    decreases Max(cfg.maxRounds - s.rounds, 0)
  {
    hide Round, Follows;
    FollowsBounded(cfg, first, firstFallback, script, s);
    if s.reply.calls != [] && s.rounds < cfg.maxRounds {
      RoundFollows(cfg, first, firstFallback, script, s);
      RoundCounts(cfg, s, script(s.rounds));
      LoopFollows(cfg, first, firstFallback, script, Round(cfg, s, script(s.rounds)));
    }
  }

  lemma FollowsBounded(cfg: Config, first: Reply, firstFallback: bool, script: nat -> Turn, s: State)
    requires Follows(cfg, first, firstFallback, script, s)
    ensures s.rounds <= cfg.maxRounds
  {
  }

  /** A turn makes the first call of each reply of the model, one a round, and ends at the first reply
      without calls or when the rounds are used up; it counts as a fallback exactly when some provider
      other than the current one had to answer. */
  lemma TurnFollows(cfg: Config, first: Reply, firstFallback: bool, script: nat -> Turn)
    ensures var t := Loop(cfg, Start(first, firstFallback), script);
      && t.rounds <= cfg.maxRounds && |t.log| == t.rounds && |t.history| == t.rounds
      && (forall k :: 0 <= k < t.rounds ==> MadeAt(t, first, script, k))
      && t.reply == ReplyAt(first, script, t.rounds) && (t.rounds == cfg.maxRounds || t.reply.calls == [])
      && (t.wasFallback <==> firstFallback || exists k :: 0 <= k < t.rounds && !script(k).next.Current?)
  {
    hide Loop;
    LoopFollows(cfg, first, firstFallback, script, Start(first, firstFallback));
  }

  // ---------------------------------------------------------------- which tools run

  predicate OnlyOnce(name: string) {
    || name == "create_order" || name == "update_payment_status" || name == "finalize_checkout"
    || name == "escalate_to_human" || name == "request_agent_handoff" || name == "send_whatsapp_handoff"
  }

  /** The tool of the k-th round really ran: it is allowed, no order is created on a proof turn, and a
      tool that may succeed only once has not yet. */
  predicate RanAt(cfg: Config, names: nat -> string, script: nat -> Turn, k: nat)
    decreases k, 0
  {
    && names(k) in cfg.allowed
    && !(names(k) == "create_order" && cfg.proofTurn)
    && forall i :: 0 <= i < k ==> !SucceededOnce(cfg, names, script, i, names(k))
  }

  predicate SucceededOnce(cfg: Config, names: nat -> string, script: nat -> Turn, i: nat, name: string)
    decreases i, 1
  {
    names(i) == name && OnlyOnce(name) && script(i).result.status != "error" && RanAt(cfg, names, script, i)
  }

  /** What the k-th round's tool answered, or why it did not run. */
  ghost predicate AnswersAt(cfg: Config, names: nat -> string, script: nat -> Turn, s: State, k: nat)
    requires k < |s.log|
  {
    var (name, result) := (names(k), s.log[k].result);
    && (RanAt(cfg, names, script, k) ==> result == script(k).result)
    && (name !in cfg.allowed ==> result.status == "error")
    && (!RanAt(cfg, names, script, k) && name in cfg.allowed ==>
          || (name == "create_order" && cfg.proofTurn && result.status == "error")
          || exists i :: 0 <= i < k && SucceededOnce(cfg, names, script, i, name)
               && result == script(i).result.(duplicate := true, details := result.details))
  }

  /** The entries of the rounds whose tool ran. */
  function RanEntries(cfg: Config, names: nat -> string, script: nat -> Turn, log: seq<Entry>): seq<Entry> {
    if log == [] then []
    else
      var n := |log| - 1;
      RanEntries(cfg, names, script, log[..n]) + (if RanAt(cfg, names, script, n) then [log[n]] else [])
  }

  /** The names of the calls of a turn, round by round. */
  function CallNames(first: Reply, script: nat -> Turn): nat -> string {
    (k: nat) => if ReplyAt(first, script, k).calls != [] then ReplyAt(first, script, k).calls[0].name else ""
  }

  /** Between two rounds: the results so far, the tools that ran, and the successes remembered. */
  ghost predicate Traced(cfg: Config, names: nat -> string, script: nat -> Turn, s: State) {
    && |s.log| == s.rounds
    && (forall k :: 0 <= k < s.rounds ==> AnswersAt(cfg, names, script, s, k))
    && s.executed == RanEntries(cfg, names, script, s.log)
    && (forall name :: name in s.singles <==>
          exists i :: 0 <= i < s.rounds && SucceededOnce(cfg, names, script, i, name))
    && (forall name, i :: 0 <= i < s.rounds && SucceededOnce(cfg, names, script, i, name) ==>
          name in s.singles && s.singles[name] == script(i).result)
  }

  lemma RunsExactly(cfg: Config, names: nat -> string, script: nat -> Turn, s: State)
    requires Traced(cfg, names, script, s)
    ensures Runs(cfg, s, names(s.rounds)) <==> RanAt(cfg, names, script, s.rounds)
  {
    hide SucceededOnce;
  }

  lemma RoundAnswers(cfg: Config, names: nat -> string, script: nat -> Turn, s: State)
    requires s.reply.calls != [] && names(s.rounds) == s.reply.calls[0].name && Traced(cfg, names, script, s)
    ensures var t := Round(cfg, s, script(s.rounds)); |t.log| == s.rounds + 1
    ensures AnswersAt(cfg, names, script, Round(cfg, s, script(s.rounds)), s.rounds)
  {
    RunsExactly(cfg, names, script, s);
    hide RanAt, RanEntries, SucceededOnce, AnswersAt;
    var name := names(s.rounds);
    var result := ResultOf(cfg, s, name, script(s.rounds).result);
    var t := Round(cfg, s, script(s.rounds));
    assert t.log[s.rounds].result == result;
    if name in cfg.allowed && name in s.singles {
      var i :| 0 <= i < s.rounds && SucceededOnce(cfg, names, script, i, name);
      assert result == script(i).result.(duplicate := true, details := result.details);
    }
    hide Round;
    AnswersFrom(cfg, names, script, s, t);
  }

  lemma AnswersFrom(cfg: Config, names: nat -> string, script: nat -> Turn, s: State, t: State)
    requires |t.log| == s.rounds + 1
    requires Runs(cfg, s, names(s.rounds)) <==> RanAt(cfg, names, script, s.rounds)
    requires t.log[s.rounds].result == ResultOf(cfg, s, names(s.rounds), script(s.rounds).result)
    requires names(s.rounds) in s.singles ==>
      exists i :: 0 <= i < s.rounds && SucceededOnce(cfg, names, script, i, names(s.rounds))
          && s.singles[names(s.rounds)] == script(i).result
    ensures AnswersAt(cfg, names, script, t, s.rounds)
  {
    hide RanAt, SucceededOnce;
  }

  /** A round leaves the results before it alone, and remembers its own if it must not run again. */
  lemma RoundTraces(cfg: Config, names: nat -> string, script: nat -> Turn, s: State)
    requires s.reply.calls != [] && names(s.rounds) == s.reply.calls[0].name && |s.log| == s.rounds
    requires Runs(cfg, s, names(s.rounds)) <==> RanAt(cfg, names, script, s.rounds)
    ensures var t := Round(cfg, s, script(s.rounds));
      && t.rounds == s.rounds + 1 && |t.log| == t.rounds && t.log[..s.rounds] == s.log
      && t.executed == s.executed + (if RanAt(cfg, names, script, s.rounds) then [t.log[s.rounds]] else [])
      && t.singles == (if SucceededOnce(cfg, names, script, s.rounds, names(s.rounds))
                       then s.singles[names(s.rounds) := script(s.rounds).result] else s.singles)
  {
    hide RanAt, RanEntries;
    var t := Round(cfg, s, script(s.rounds));
    assert t.log[..s.rounds] == s.log;
    assert s.executed + [] == s.executed;
    assert SingleUse(names(s.rounds)) == OnlyOnce(names(s.rounds));
  }

  lemma TracedGrows(cfg: Config, names: nat -> string, script: nat -> Turn, s: State, t: State)
    requires Traced(cfg, names, script, s) && t.rounds == s.rounds + 1 && |t.log| == t.rounds
    requires t.log[..s.rounds] == s.log && AnswersAt(cfg, names, script, t, s.rounds)
    requires t.executed == s.executed + (if RanAt(cfg, names, script, s.rounds) then [t.log[s.rounds]] else [])
    requires t.singles == (if SucceededOnce(cfg, names, script, s.rounds, names(s.rounds))
                           then s.singles[names(s.rounds) := script(s.rounds).result] else s.singles)
    ensures Traced(cfg, names, script, t)
  {
    forall k | 0 <= k < t.rounds
      ensures AnswersAt(cfg, names, script, t, k)
    {
      if k < s.rounds {
        assert AnswersAt(cfg, names, script, s, k);
        assert t.log[..s.rounds][k] == t.log[k];
      }
    }
    assert forall name, i :: SucceededOnce(cfg, names, script, i, name) ==> names(i) == name;
    SucceedsOnce(cfg, names, script);
    hide RanAt, SucceededOnce, AnswersAt;
  }

  lemma SucceedsOnce(cfg: Config, names: nat -> string, script: nat -> Turn)
    ensures forall name, i: nat, j: nat ::
        SucceededOnce(cfg, names, script, i, name) && SucceededOnce(cfg, names, script, j, name) ==> i == j
  {
  }

  lemma RoundTraced(cfg: Config, names: nat -> string, script: nat -> Turn, s: State)
    requires s.reply.calls != [] && names(s.rounds) == s.reply.calls[0].name && Traced(cfg, names, script, s)
    ensures Traced(cfg, names, script, Round(cfg, s, script(s.rounds)))
  {
    RunsExactly(cfg, names, script, s);
    RoundAnswers(cfg, names, script, s);
    assert |s.log| == s.rounds;
    hide *;
    RoundTraces(cfg, names, script, s);
    TracedGrows(cfg, names, script, s, Round(cfg, s, script(s.rounds)));
  }

  lemma {:induction false} LoopTraced(cfg: Config, first: Reply, firstFallback: bool, script: nat -> Turn, s: State)
    requires Follows(cfg, first, firstFallback, script, s) && Traced(cfg, CallNames(first, script), script, s)
    ensures Traced(cfg, CallNames(first, script), script, Loop(cfg, s, script))
    decreases Max(cfg.maxRounds - s.rounds, 0)
  {
    if s.reply.calls != [] && s.rounds < cfg.maxRounds {
      assert CallNames(first, script)(s.rounds) == s.reply.calls[0].name;
      hide Round, Follows, Traced, CallNames, ReplyAt;
      RoundFollows(cfg, first, firstFallback, script, s);
      RoundTraced(cfg, CallNames(first, script), script, s);
      RoundCounts(cfg, s, script(s.rounds));
      LoopTraced(cfg, first, firstFallback, script, Round(cfg, s, script(s.rounds)));
    }
  }

  /** The tools that run in a turn are exactly those the model calls that are allowed, do not create an
      order from a payment proof, and have not succeeded before if they may succeed only once; a call
      that does not run is answered with an error or with the earlier success. */
  lemma ToolsRunExactly(cfg: Config, first: Reply, firstFallback: bool, script: nat -> Turn)
    ensures
      var t := Loop(cfg, Start(first, firstFallback), script);
      var names := CallNames(first, script);
      && |t.log| == t.rounds
      && t.executed == RanEntries(cfg, names, script, t.log)
      && forall k :: 0 <= k < t.rounds ==> AnswersAt(cfg, names, script, t, k)
  {
    hide Loop, AnswersAt, RanEntries;
    assert RanEntries(cfg, CallNames(first, script), script, []) == [] by {
      NothingRan(cfg, CallNames(first, script), script);
    }
    LoopTraced(cfg, first, firstFallback, script, Start(first, firstFallback));
  }

  lemma NothingRan(cfg: Config, names: nat -> string, script: nat -> Turn)
    ensures RanEntries(cfg, names, script, []) == []
  {
  }

  // ---------------------------------------------------------------- what the results come to

  /** The last entry of this kind gives the value; without one there is none. */
  ghost predicate Latest<T(!new)>(log: seq<Entry>, counts: Entry -> bool, value: Entry -> Option<T>, found: Option<T>) {
    || (found == None && forall i :: 0 <= i < |log| ==> !counts(log[i]))
    || (exists i :: IsLast(log, counts, i) && found == value(log[i]))
  }

  predicate IsLast(log: seq<Entry>, counts: Entry -> bool, i: int) {
    0 <= i < |log| && counts(log[i]) && forall j :: i < j < |log| ==> !counts(log[j])
  }

  lemma LatestGrows<T(!new)>(log: seq<Entry>, e: Entry, counts: Entry -> bool, value: Entry -> Option<T>,
                             found: Option<T>)
    requires Latest(log, counts, value, found)
    ensures Latest(log + [e], counts, value, if counts(e) then value(e) else found)
  {
    var grown := log + [e];
    assert grown[|log|] == e && forall i :: 0 <= i < |log| ==> grown[i] == log[i];
    if counts(e) {
      assert IsLast(grown, counts, |log|);
    } else if i :| IsLast(log, counts, i) && found == value(log[i]) {
      assert IsLast(grown, counts, i);
    }
  }

  /** A result of this kind from this tool, if the agent may use it. */
  function Payload(cfg: Config, name: string, kind: string): Entry -> bool {
    (e: Entry) => e.name == name && name in cfg.allowed && e.result.kind == kind
  }

  function Buttons(cfg: Config): Entry -> bool {
    (e: Entry) => e.name == "send_interactive_buttons" && "send_interactive_buttons" in cfg.allowed && cfg.buttonChannel
  }

  function TheResult(): Entry -> Option<ToolResult> {
    (e: Entry) => Some(e.result)
  }

  predicate HandsOff(e: Entry) {
    || e.name == "escalate_to_human"
    || (e.name == "request_agent_handoff" && e.result.kind == "agent_handoff")
    || (e.name == "send_whatsapp_handoff" && e.result.kind == "whatsapp_handoff")
  }

  /** Only entries that hand off to an agent or to WhatsApp name a target. */
  function NamesTarget(): Entry -> bool {
    (e: Entry) => HandsOff(e) && e.name != "escalate_to_human"
  }

  function TheTarget(): Entry -> Option<string> {
    (e: Entry) => if e.name == "send_whatsapp_handoff" then Some("whatsapp") else e.result.target
  }

  /** What the state holds of the results so far. */
  ghost predicate Collected(cfg: Config, s: State) {
    && Latest(s.log, Buttons(cfg), TheResult(), s.buttons)
    && Latest(s.log, Payload(cfg, "send_catalog_pdf", "catalog_pdf"), TheResult(), s.pdf)
    && Latest(s.log, Payload(cfg, "send_product_image", "product_image"), TheResult(), s.image)
    && Latest(s.log, Payload(cfg, "send_whatsapp_handoff", "whatsapp_handoff"), TheResult(), s.whatsapp)
    && Latest(s.log, NamesTarget(), TheTarget(), s.target)
    && (s.requestedHandoff <==> exists i :: 0 <= i < |s.log| && HandsOff(s.log[i]))
  }

  lemma RoundFlags(cfg: Config, s: State, turn: Turn)
    requires s.reply.calls != []
    ensures
      var t := Round(cfg, s, turn);
      && |t.log| == |s.log| + 1 && t.log == s.log + [t.log[|s.log|]]
      && (t.requestedHandoff <==> s.requestedHandoff || HandsOff(t.log[|s.log|]))
      && t.target == (if NamesTarget()(t.log[|s.log|]) then TheTarget()(t.log[|s.log|]) else s.target)
  {
  }

  lemma RoundPayloads(cfg: Config, s: State, turn: Turn)
    requires s.reply.calls != []
    ensures
      var t := Round(cfg, s, turn);
      && |t.log| == |s.log| + 1
      && var e := t.log[|s.log|];
      && t.buttons == (if Buttons(cfg)(e) then Some(e.result) else s.buttons)
      && t.pdf == (if Payload(cfg, "send_catalog_pdf", "catalog_pdf")(e) then Some(e.result) else s.pdf)
      && t.image == (if Payload(cfg, "send_product_image", "product_image")(e) then Some(e.result) else s.image)
      && t.whatsapp
           == (if Payload(cfg, "send_whatsapp_handoff", "whatsapp_handoff")(e) then Some(e.result) else s.whatsapp)
  {
  }

  /** From `s` to `t` the log grows by one entry, and the rest follows it. */
  predicate Adds(cfg: Config, s: State, t: State, e: Entry) {
    && t.log == s.log + [e]
    && t.buttons == (if Buttons(cfg)(e) then Some(e.result) else s.buttons)
    && t.pdf == (if Payload(cfg, "send_catalog_pdf", "catalog_pdf")(e) then Some(e.result) else s.pdf)
    && t.image == (if Payload(cfg, "send_product_image", "product_image")(e) then Some(e.result) else s.image)
    && t.whatsapp
         == (if Payload(cfg, "send_whatsapp_handoff", "whatsapp_handoff")(e) then Some(e.result) else s.whatsapp)
    && t.target == (if NamesTarget()(e) then TheTarget()(e) else s.target)
    && (t.requestedHandoff <==> s.requestedHandoff || HandsOff(e))
  }

  lemma CollectsOneMore(cfg: Config, s: State, t: State, e: Entry)
    requires Collected(cfg, s) && Adds(cfg, s, t, e)
    ensures Collected(cfg, t)
  {
    hide Latest, HandsOff, NamesTarget, TheTarget, Buttons, Payload;
    LatestGrows(s.log, e, Buttons(cfg), TheResult(), s.buttons);
    LatestGrows(s.log, e, Payload(cfg, "send_catalog_pdf", "catalog_pdf"), TheResult(), s.pdf);
    LatestGrows(s.log, e, Payload(cfg, "send_product_image", "product_image"), TheResult(), s.image);
    LatestGrows(s.log, e, Payload(cfg, "send_whatsapp_handoff", "whatsapp_handoff"), TheResult(), s.whatsapp);
    LatestGrows(s.log, e, NamesTarget(), TheTarget(), s.target);
    HandoffGrows(s.log, e);
  }

  lemma HandoffGrows(log: seq<Entry>, e: Entry)
    ensures (exists i :: 0 <= i < |log + [e]| && HandsOff((log + [e])[i])) <==>
            HandsOff(e) || exists i :: 0 <= i < |log| && HandsOff(log[i])
  {
    hide HandsOff;
    var grown := log + [e];
    assert grown[|log|] == e && forall i :: 0 <= i < |log| ==> grown[i] == log[i];
    if i :| 0 <= i < |log| && HandsOff(log[i]) {
      assert HandsOff(grown[i]);
    }
    assert HandsOff(e) ==> HandsOff(grown[|log|]);
  }

  lemma RoundCollects(cfg: Config, s: State, turn: Turn)
    requires s.reply.calls != [] && Collected(cfg, s)
    ensures Collected(cfg, Round(cfg, s, turn))
  {
    RoundFlags(cfg, s, turn);
    RoundPayloads(cfg, s, turn);
    hide Round, Collected, HandsOff, NamesTarget, TheTarget, Buttons, Payload;
    var t := Round(cfg, s, turn);
    CollectsOneMore(cfg, s, t, t.log[|s.log|]);
  }

  lemma {:induction false} LoopCollects(cfg: Config, s: State, script: nat -> Turn)
    requires Collected(cfg, s)
    ensures Collected(cfg, Loop(cfg, s, script))
    decreases Max(cfg.maxRounds - s.rounds, 0)
  {
    hide Round, Collected;
    if s.reply.calls != [] && s.rounds < cfg.maxRounds {
      RoundCollects(cfg, s, script(s.rounds));
      RoundCounts(cfg, s, script(s.rounds));
      LoopCollects(cfg, Round(cfg, s, script(s.rounds)), script);
    }
  }

  /** What a turn hands over: of buttons, catalog, image and WhatsApp handoff the last result of their
      tool, of the handoff target the last one named, and a request to hand off exactly when a tool of
      the turn asked for one. */
  lemma TurnCollects(cfg: Config, first: Reply, firstFallback: bool, script: nat -> Turn)
    ensures Collected(cfg, Loop(cfg, Start(first, firstFallback), script))
  {
    hide Loop;
    LoopCollects(cfg, Start(first, firstFallback), script);
  }

  /** When the customer must be handed over, the turn ends with a handoff or with one more call of its
      tool that did not bring one; otherwise the server adds nothing. */
  lemma RequiredHandoffIsMade(cfg: Config, s: State, args: Args, result: ToolResult)
    requires Collected(cfg, s)
    ensures
      var t := Finish(cfg, s, args, result);
      if cfg.required && "send_whatsapp_handoff" in cfg.allowed && s.whatsapp.None? then
        && t.log == s.log + [Entry("send_whatsapp_handoff", args, result)]
        && t.executed == s.executed + [Entry("send_whatsapp_handoff", args, result)]
        && Collected(cfg, t)
        && (result.kind == "whatsapp_handoff" ==> t.whatsapp == Some(result) && t.target == Some("whatsapp"))
      else t == s
  {
    var t := Finish(cfg, s, args, result);
    if cfg.required && "send_whatsapp_handoff" in cfg.allowed && s.whatsapp.None? {
      hide Collected;
      CollectsOneMore(cfg, s, t, Entry("send_whatsapp_handoff", args, result));
    }
  }
}
