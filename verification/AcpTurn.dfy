/**
 * One prompt turn of the ACP adapter: session events become wire notifications, and the
 * prompt's promise settles.
 *
 * `OnInput` is the listener, `Turn` its closure.  A wire client must see the `tool_call`
 * of an id before any `tool_call_update` for it; `CreatedFirstIff` says when it does.
 */
module AcpTurn {
  import opened Wrappers
  import opened Bytes
  import opened WireIds

  // ---------- Events and notifications ----------

  datatype EndReason = Completed | Cancelled | Failed(authError: bool) | Filtered

  datatype Display =
    | Diff(path: string, before: string, after: string)
    | FileIo(path: string, maybeBefore: Option<string>, maybeAfter: Option<string>)
    | TodoList(items: seq<TodoItem>)
    | OtherDisplay

  datatype TodoItem = TodoItem(title: string, status: string)

  /** The arguments of a started call and the output of a result come already converted to text. */
  datatype Body =
    | TurnStarted(turnId: int)
    | TurnEnded(turnId: int, reason: EndReason)
    | ErrorEvent(busy: bool)
    | AssistantDelta(turnId: int, delta: string)
    | ThinkingDelta(turnId: int, delta: string)
    | ToolCallStarted(turnId: int, toolCallId: string, name: string, description: Option<string>,
                      args: string, display: Option<Display>)
    | ToolCallDelta(turnId: int, toolCallId: string, maybeName: Option<string>, argumentsPart: Option<string>)
    | ToolProgress(turnId: int, toolCallId: string, isStatus: bool, text: string)
    | ToolResult(turnId: int, toolCallId: string, isError: bool, output: seq<Content>)
    | OtherEvent(maybeTurnId: Option<int>)

  datatype Event = Event(agentId: Option<string>, body: Body)

  /** What reaches the turn: an event of the session, or the rejection of the call that started it. */
  datatype Input = FromSession(event: Event) | KickRejected

  datatype Content = TextContent(text: string) | DiffContent(path: string, oldText: string, newText: string)

  datatype ToolKind = Read | Edit | Execute | Fetch | Think | Other

  datatype Status = Pending | InProgress | StatusCompleted | StatusFailed

  datatype PlanEntry = PlanEntry(content: string, status: Status)

  datatype Notification =
    | AgentMessageChunk(text: string)
    | AgentThoughtChunk(text: string)
    | CreateToolCall(id: string, title: string, kind: ToolKind, status: Status, rawInput: Option<string>,
                     content: seq<Content>)
    | UpdateToolCall(id: string, maybeTitle: Option<string>, maybeKind: Option<ToolKind>, maybeStatus: Option<Status>,
                     rawInput: Option<string>, maybeContent: Option<seq<Content>>)
    | Plan(entries: seq<PlanEntry>)

  datatype Settlement = EndTurn | CancelledTurn | Refusal | AuthRequired | Busy | PromptFailed

  const MAIN_AGENT_ID := "main"

  predicate IsFromMainAgent(event: Event) {
    event.agentId.None? || event.agentId.value == MAIN_AGENT_ID
  }

  // ---------- The event map ----------

  function InferToolKind(name: string): (kind: ToolKind) {
    if name in {"Read", "Glob", "Grep"} then Read
    else if name in {"Write", "Edit"} then Edit
    else if name in {"Bash", "Terminal"} then Execute
    else if name in {"WebFetch", "WebSearch"} then Fetch
    else if name == "Think" then Think
    else Other
  }

  function DiffOf(display: Option<Display>): (content: seq<Content>) {
    match display
    case Some(Diff(path, before, after)) => [DiffContent(path, before, after)]
    case Some(FileIo(path, Some(before), Some(after))) => [DiffContent(path, before, after)]
    case _ => []
  }

  function StartToSessionUpdate(id: string, event: Body): (note: Notification)
    requires event.ToolCallStarted?
  {
    CreateToolCall(id, event.description.GetOr(event.name), InferToolKind(event.name), InProgress, Some(event.args),
                   DiffOf(event.display) + [TextContent(event.args)])
  }

  function StartedUpgradeToSessionUpdate(id: string, event: Body): (note: Notification)
    requires event.ToolCallStarted?
  {
    UpdateToolCall(id, Some(event.description.GetOr(event.name)), Some(InferToolKind(event.name)), Some(InProgress),
                   Some(event.args), Some(DiffOf(event.display) + [TextContent(event.args)]))
  }

  function LazyCreateToSessionUpdate(id: string, event: Body): (note: Notification)
    requires event.ToolCallDelta?
  {
    var named := event.maybeName.Some? && event.maybeName.value != "";
    CreateToolCall(id, event.maybeName.GetOr("tool"), if named then InferToolKind(event.maybeName.value) else Other,
                   Pending, None, [TextContent(event.argumentsPart.GetOr(""))])
  }

  function DeltaToSessionUpdate(id: string, accumulated: string): (note: Notification) {
    UpdateToolCall(id, None, None, Some(InProgress), None, Some([TextContent(accumulated)]))
  }

  /** Only a status with a text becomes a notification. */
  function ProgressToSessionUpdate(id: string, event: Body): (notes: seq<Notification>)
    requires event.ToolProgress?
  {
    if event.isStatus && event.text != "" then [UpdateToolCall(id, Some(event.text), None, None, None, None)] else []
  }

  function ResultToSessionUpdate(id: string, event: Body): (note: Notification)
    requires event.ToolResult?
  {
    UpdateToolCall(id, None, None, Some(if event.isError then StatusFailed else StatusCompleted), None, Some(event.output))
  }

  function MapTodoStatus(status: string): (mapped: Status) {
    if status == "in_progress" then InProgress
    else if status == "done" || status == "completed" then StatusCompleted
    else Pending
  }

  function PlanOf(display: Option<Display>): (notes: seq<Notification>) {
    match display
    case Some(TodoList(items)) =>
      if items == [] then [] else
        [Plan(seq(|items|, i requires 0 <= i < |items| => PlanEntry(items[i].title, MapTodoStatus(items[i].status))))]
    case _ => []
  }

  // ---------- The listener ----------

  /** The closure of the listener, what it has sent, and how the promise has settled. */
  datatype Turn = Turn(
    settled: bool,
    subscribed: bool,
    currentTurnId: Option<int>,
    initialTurnId: Option<int>,
    ownTurnStarted: bool,
    args: map<string, string>,
    started: set<string>,
    wire: seq<Notification>,
    settlements: seq<Settlement>)

  function NewTurn(activeTurnId: Option<int>): (turn: Turn) {
    Turn(false, true, activeTurnId, activeTurnId, false, map[], {}, [], [])
  }

  function TurnIdOf(body: Body): (turnId: Option<int>) {
    match body
    case ErrorEvent(_) => None
    case OtherEvent(maybeTurnId) => maybeTurnId
    case _ => Some(body.turnId)
  }

  /** The bookkeeping before the dispatch. */
  function Track(turn: Turn, event: Event): (tracked: Turn) {
    var own := turn.ownTurnStarted ||
      (event.body.TurnStarted? && IsFromMainAgent(event)
       && (turn.initialTurnId.None? || event.body.turnId != turn.initialTurnId.value));
    var current := if TurnIdOf(event.body).Some? && IsFromMainAgent(event) then TurnIdOf(event.body) else turn.currentTurnId;
    turn.(ownTurnStarted := own, currentTurnId := current)
  }

  function Send(turn: Turn, notes: seq<Notification>): (sent: Turn) {
    turn.(wire := turn.wire + notes)
  }

  /** Settling clears the maps, forgets the turn and unsubscribes. */
  function Settle(turn: Turn, settlement: Settlement): (done: Turn) {
    turn.(settled := true, subscribed := false, currentTurnId := None, args := map[], started := {},
          settlements := turn.settlements + [settlement])
  }

  function EndSettlement(reason: EndReason): (settlement: Settlement) {
    match reason
    case Completed => EndTurn
    case Cancelled => CancelledTurn
    case Failed(authError) => if authError then AuthRequired else EndTurn
    case Filtered => Refusal
  }

  function OnStarted(turn: Turn, body: Body): (next: Turn)
    requires body.ToolCallStarted?
  {
    var id := AcpToolCallId(body.turnId, body.toolCallId);
    var seeded := turn.(args := turn.args[body.toolCallId := body.args]);
    var shown := if id in turn.started then Send(seeded, [StartedUpgradeToSessionUpdate(id, body)])
                 else Send(seeded.(started := turn.started + {id}), [StartToSessionUpdate(id, body)]);
    Send(shown, PlanOf(body.display))
  }

  function OnDelta(turn: Turn, body: Body): (next: Turn)
    requires body.ToolCallDelta?
  {
    var id, part := AcpToolCallId(body.turnId, body.toolCallId), body.argumentsPart.GetOr("");
    if id !in turn.started then
      Send(turn.(args := turn.args[body.toolCallId := part], started := turn.started + {id}),
           [LazyCreateToSessionUpdate(id, body)])
    else
      var accumulated := (if body.toolCallId in turn.args then turn.args[body.toolCallId] else "") + part;
      Send(turn.(args := turn.args[body.toolCallId := accumulated]), [DeltaToSessionUpdate(id, accumulated)])
  }

  function OnEvent(turn: Turn, event: Event): (next: Turn) {
    var tracked, main := Track(turn, event), IsFromMainAgent(event);
    match event.body
    case ErrorEvent(busy) =>
      if tracked.settled || !main || !busy || tracked.ownTurnStarted then tracked else Settle(tracked, Busy)
    case AssistantDelta(_, delta) => if main then Send(tracked, [AgentMessageChunk(delta)]) else tracked
    case ThinkingDelta(_, delta) => if main then Send(tracked, [AgentThoughtChunk(delta)]) else tracked
    case ToolCallStarted(_, _, _, _, _, _) => if main then OnStarted(tracked, event.body) else tracked
    case ToolCallDelta(_, _, _, _) => if main then OnDelta(tracked, event.body) else tracked
    case ToolProgress(turnId, toolCallId, _, _) =>
      if main then Send(tracked, ProgressToSessionUpdate(AcpToolCallId(turnId, toolCallId), event.body)) else tracked
    case ToolResult(turnId, toolCallId, _, _) =>
      if main then Send(tracked, [ResultToSessionUpdate(AcpToolCallId(turnId, toolCallId), event.body)]) else tracked
    case TurnEnded(_, reason) =>
      if tracked.settled || !main then tracked else Settle(tracked, EndSettlement(reason))
    case _ => tracked
  }

  function OnInput(turn: Turn, input: Input): (next: Turn) {
    match input
    case FromSession(event) => if turn.subscribed then OnEvent(turn, event) else turn
    case KickRejected =>
      if turn.settled then turn
      else turn.(settled := true, subscribed := false, settlements := turn.settlements + [PromptFailed])
  }

  /** The turn after the inputs so far. */
  function Run(activeTurnId: Option<int>, inputs: seq<Input>): (turn: Turn) {
    if inputs == [] then NewTurn(activeTurnId)
    else OnInput(Run(activeTurnId, inputs[..|inputs| - 1]), inputs[|inputs| - 1])
  }

  // ---------- Settling ----------

  ghost predicate SettledOnce(turn: Turn) {
    turn.subscribed == !turn.settled && |turn.settlements| == if turn.settled then 1 else 0
  }

  lemma SettleStep(turn: Turn, input: Input)
    requires SettledOnce(turn)
    ensures SettledOnce(OnInput(turn, input))
  {
    hide AcpToolCallId, StartToSessionUpdate, StartedUpgradeToSessionUpdate, LazyCreateToSessionUpdate, PlanOf;
    hide ResultToSessionUpdate, ProgressToSessionUpdate;
  }

  /** Settled, unsubscribed and one settlement are the same thing. */
  lemma {:induction false} SettlesOnce(activeTurnId: Option<int>, inputs: seq<Input>)
    ensures SettledOnce(Run(activeTurnId, inputs))
  {
    hide OnInput;
    if inputs != [] {
      SettlesOnce(activeTurnId, inputs[..|inputs| - 1]);
      SettleStep(Run(activeTurnId, inputs[..|inputs| - 1]), inputs[|inputs| - 1]);
    }
  }

  lemma RunNothing(activeTurnId: Option<int>)
    ensures Run(activeTurnId, []) == NewTurn(activeTurnId)
  {
  }

  lemma RunSnoc(activeTurnId: Option<int>, inputs: seq<Input>, input: Input)
    ensures Run(activeTurnId, inputs + [input]) == OnInput(Run(activeTurnId, inputs), input)
  {
    assert (inputs + [input])[..|inputs|] == inputs;
  }

  /** Once the promise has settled nothing changes any more: no notification, no second settlement. */
  lemma {:induction false} SilentAfterSettling(activeTurnId: Option<int>, inputs: seq<Input>, more: seq<Input>)
    requires Run(activeTurnId, inputs).settled
    ensures Run(activeTurnId, inputs + more) == Run(activeTurnId, inputs)
  {
    if more == [] {
      assert inputs + more == inputs;
    } else {
      var k := |more| - 1;
      SilentAfterSettling(activeTurnId, inputs, more[..k]);
      SettlesOnce(activeTurnId, inputs);
      assert inputs + more == (inputs + more[..k]) + [more[k]];
      hide Run;
      RunSnoc(activeTurnId, inputs + more[..k], more[k]);
    }
  }

  // ---------- Which settlement ----------

  predicate IsMain(input: Input) {
    input.FromSession? && IsFromMainAgent(input.event)
  }

  /** The main agent has started a turn other than the one that was active at the beginning. */
  ghost predicate OwnStarted(activeTurnId: Option<int>, inputs: seq<Input>) {
    exists k :: 0 <= k < |inputs| && IsMain(inputs[k]) && inputs[k].event.body.TurnStarted?
                && activeTurnId != Some(inputs[k].event.body.turnId)
  }

  /**
   * Input `k` ends the prompt if nothing has ended it before: the rejection of the start, the end of a
   * turn of the main agent, or its busy error before the prompt's own turn has started.
   */
  ghost predicate CanSettle(activeTurnId: Option<int>, inputs: seq<Input>, k: nat) {
    k < |inputs| &&
    (|| inputs[k].KickRejected?
     || (IsMain(inputs[k]) && inputs[k].event.body.TurnEnded?)
     || (IsMain(inputs[k]) && inputs[k].event.body == ErrorEvent(true) && !OwnStarted(activeTurnId, inputs[..k])))
  }

  ghost predicate FirstSettles(activeTurnId: Option<int>, inputs: seq<Input>, k: nat) {
    CanSettle(activeTurnId, inputs, k) && forall j: nat :: j < k ==> !CanSettle(activeTurnId, inputs, j)
  }

  predicate EndsWith(input: Input, reason: EndReason) {
    IsMain(input) && input.event.body.TurnEnded? && input.event.body.reason == reason
  }

  /** What the prompt answers when `input` ends it. */
  ghost predicate IsAnswer(input: Input, settlement: Settlement) {
    && (settlement == CancelledTurn <==> EndsWith(input, Cancelled))
    && (settlement == Refusal <==> EndsWith(input, Filtered))
    && (settlement == AuthRequired <==> EndsWith(input, Failed(true)))
    && (settlement == EndTurn <==> EndsWith(input, Completed) || EndsWith(input, Failed(false)))
    && (settlement == Busy <==> input.FromSession? && input.event.body.ErrorEvent?)
    && (settlement == PromptFailed <==> input.KickRejected?)
  }

  ghost predicate SettledBy(activeTurnId: Option<int>, inputs: seq<Input>, turn: Turn) {
    && (turn.settled <==> exists k: nat :: CanSettle(activeTurnId, inputs, k))
    && (forall k: nat :: FirstSettles(activeTurnId, inputs, k) ==>
          |turn.settlements| == 1 && IsAnswer(inputs[k], turn.settlements[0]))
    && (!turn.settled ==> (turn.ownTurnStarted <==> OwnStarted(activeTurnId, inputs)) && turn.initialTurnId == activeTurnId)
  }

  lemma OwnStartedSnoc(activeTurnId: Option<int>, inputs: seq<Input>, input: Input)
    ensures OwnStarted(activeTurnId, inputs + [input]) <==>
      OwnStarted(activeTurnId, inputs) ||
      (IsMain(input) && input.event.body.TurnStarted? && activeTurnId != Some(input.event.body.turnId))
  {
    var all := inputs + [input];
    assert forall k :: 0 <= k < |inputs| ==> all[k] == inputs[k];
    assert all[|inputs|] == input;
  }

  lemma CanSettleSnoc(activeTurnId: Option<int>, inputs: seq<Input>, input: Input, k: nat)
    ensures k < |inputs| ==> (CanSettle(activeTurnId, inputs + [input], k) <==> CanSettle(activeTurnId, inputs, k))
    ensures k > |inputs| ==> !CanSettle(activeTurnId, inputs + [input], k)
  {
    hide OwnStarted;
    var all := inputs + [input];
    if k < |inputs| { assert all[k] == inputs[k] && all[..k] == inputs[..k]; }
  }

  /** Whether one input settles an unsettled prompt, and how. */
  lemma SettlingStep(turn: Turn, activeTurnId: Option<int>, inputs: seq<Input>, input: Input)
    requires SettledOnce(turn) && !turn.settled && turn.initialTurnId == activeTurnId
    requires turn.ownTurnStarted <==> OwnStarted(activeTurnId, inputs)
    ensures var next := OnInput(turn, input);
      && (next.settled <==> CanSettle(activeTurnId, inputs + [input], |inputs|))
      && (next.settled ==> |next.settlements| == 1 && IsAnswer(input, next.settlements[0]))
      && (!next.settled ==> next.initialTurnId == activeTurnId
                            && (next.ownTurnStarted <==> OwnStarted(activeTurnId, inputs + [input])))
  {
    OwnStartedSnoc(activeTurnId, inputs, input);
    var all := inputs + [input];
    assert all[|inputs|] == input && all[..|inputs|] == inputs;
    hide AcpToolCallId, StartToSessionUpdate, StartedUpgradeToSessionUpdate, LazyCreateToSessionUpdate, PlanOf;
    hide ResultToSessionUpdate, ProgressToSessionUpdate, OwnStarted, DeltaToSessionUpdate;
  }

  /** Over every run, the first input that can settle the prompt does, and with its own answer. */
  lemma {:induction false} SettlementIs(activeTurnId: Option<int>, inputs: seq<Input>)
    ensures SettledBy(activeTurnId, inputs, Run(activeTurnId, inputs))
  {
    if inputs != [] {
      var n := |inputs| - 1;
      var front, last := inputs[..n], inputs[n];
      assert inputs == front + [last];
      SettlementIs(activeTurnId, front);
      SettlesOnce(activeTurnId, front);
      var before := Run(activeTurnId, front);
      RunSnoc(activeTurnId, front, last);
      forall k: nat
        ensures k < n ==> (CanSettle(activeTurnId, inputs, k) <==> CanSettle(activeTurnId, front, k))
        ensures k > n ==> !CanSettle(activeTurnId, inputs, k)
      {
        CanSettleSnoc(activeTurnId, front, last, k);
      }
      hide Run, OnInput, IsAnswer, CanSettle;
      if before.settled {
        SettledStays(before, last);
        SettledByLater(activeTurnId, front, last, before);
      } else {
        SettlingStep(before, activeTurnId, front, last);
        SettledByLast(activeTurnId, front, last, OnInput(before, last));
      }
    }
  }

  lemma SettledStays(turn: Turn, input: Input)
    requires SettledOnce(turn) && turn.settled
    ensures OnInput(turn, input) == turn
  {
  }

  lemma SettledByLater(activeTurnId: Option<int>, front: seq<Input>, last: Input, turn: Turn)
    requires SettledBy(activeTurnId, front, turn) && turn.settled
    requires forall k: nat :: k < |front| ==>
      (CanSettle(activeTurnId, front + [last], k) <==> CanSettle(activeTurnId, front, k))
    ensures SettledBy(activeTurnId, front + [last], turn)
  {
    hide IsAnswer, OwnStarted;
    var all := front + [last];
    var j: nat :| CanSettle(activeTurnId, front, j);
    assert j < |front| && CanSettle(activeTurnId, all, j);
    forall k: nat | FirstSettles(activeTurnId, all, k)
      ensures FirstSettles(activeTurnId, front, k) && all[k] == front[k]
    {
      assert k <= j;
    }
  }

  lemma SettledByLast(activeTurnId: Option<int>, front: seq<Input>, last: Input, turn: Turn)
    requires forall k: nat :: k < |front| ==> !CanSettle(activeTurnId, front + [last], k)
    requires turn.settled <==> CanSettle(activeTurnId, front + [last], |front|)
    requires turn.settled ==> |turn.settlements| == 1 && IsAnswer(last, turn.settlements[0])
    requires !turn.settled ==> turn.initialTurnId == activeTurnId
                               && (turn.ownTurnStarted <==> OwnStarted(activeTurnId, front + [last]))
    ensures SettledBy(activeTurnId, front + [last], turn)
  {
    hide IsAnswer, OwnStarted;
    var all := front + [last];
    assert all[|front|] == last;
    forall k: nat | CanSettle(activeTurnId, all, k)
      ensures k == |front|
    {
    }
  }

  // ---------- Child agents ----------

  predicate FromChild(input: Input) {
    input.FromSession? && !IsFromMainAgent(input.event)
  }

  function WithoutChildren(inputs: seq<Input>): (kept: seq<Input>) {
    if inputs == [] then [] else
      var front, last := inputs[..|inputs| - 1], inputs[|inputs| - 1];
      if FromChild(last) then WithoutChildren(front) else WithoutChildren(front) + [last]
  }

  /** Deleting the events of child agents changes nothing: not the wire, not the promise, not the state. */
  lemma {:induction false} ChildrenInvisible(activeTurnId: Option<int>, inputs: seq<Input>)
    ensures Run(activeTurnId, WithoutChildren(inputs)) == Run(activeTurnId, inputs)
  {
    if inputs != [] {
      var front, last := inputs[..|inputs| - 1], inputs[|inputs| - 1];
      ChildrenInvisible(activeTurnId, front);
      hide OnStarted, OnDelta;
      if !FromChild(last) { RunSnoc(activeTurnId, WithoutChildren(front), last); }
    }
  }

  // ---------- Create before update ----------

  /** The wire id a first delta or a start introduces. */
  function Introduces(input: Input): (id: Option<string>) {
    if input.FromSession? && IsFromMainAgent(input.event)
       && (input.event.body.ToolCallStarted? || input.event.body.ToolCallDelta?)
    then Some(AcpToolCallId(input.event.body.turnId, input.event.body.toolCallId))
    else None
  }

  /** The wire id a progress status or a result updates. */
  function OnlyUpdates(input: Input): (id: Option<string>) {
    if input.FromSession? && IsFromMainAgent(input.event)
       && (input.event.body.ToolResult?
           || (input.event.body.ToolProgress? && input.event.body.isStatus && input.event.body.text != ""))
    then Some(AcpToolCallId(input.event.body.turnId, input.event.body.toolCallId))
    else None
  }

  ghost predicate Introduced(inputs: seq<Input>, id: string) {
    exists k :: 0 <= k < |inputs| && Introduces(inputs[k]) == Some(id)
  }

  ghost predicate Created(wire: seq<Notification>, id: string) {
    exists k :: 0 <= k < |wire| && wire[k].CreateToolCall? && wire[k].id == id
  }

  /** No update reaches the client before the creation of its id. */
  ghost predicate CreatedFirst(wire: seq<Notification>) {
    forall k :: 0 <= k < |wire| && wire[k].UpdateToolCall? ==> Created(wire[..k], wire[k].id)
  }

  function Creations(wire: seq<Notification>, id: string): (n: nat) {
    if wire == [] then 0 else
      Creations(wire[..|wire| - 1], id)
      + (if wire[|wire| - 1].CreateToolCall? && wire[|wire| - 1].id == id then 1 else 0)
  }

  /** Every progress status and result that arrives in time comes after its call's first delta or start. */
  ghost predicate WellOrdered(activeTurnId: Option<int>, inputs: seq<Input>) {
    forall k :: 0 <= k < |inputs| && OnlyUpdates(inputs[k]).Some? && !Run(activeTurnId, inputs[..k]).settled ==>
      Introduced(inputs[..k], OnlyUpdates(inputs[k]).value)
  }

  predicate Unnumbered(notes: seq<Notification>) {
    forall note <- notes :: !note.CreateToolCall? && !note.UpdateToolCall?
  }

  /** What one input adds to the wire. */
  lemma WireStep(turn: Turn, input: Input) returns (first: seq<Notification>, rest: seq<Notification>)
    ensures OnInput(turn, input).wire == turn.wire + first + rest && Unnumbered(rest)
    ensures !turn.subscribed ==> first == rest == []
    ensures turn.subscribed && Introduces(input).Some? ==>
      var id := Introduces(input).value;
      && |first| == 1
      && (if id in turn.started then first[0].UpdateToolCall? else first[0].CreateToolCall?) && first[0].id == id
      && OnInput(turn, input).subscribed && OnInput(turn, input).started == turn.started + {id}
    ensures |first| <= 1 && (|first| == 1 ==> first[0].CreateToolCall? || first[0].UpdateToolCall?)
    ensures turn.subscribed && OnlyUpdates(input).Some? ==>
      |first| == 1 && first[0].UpdateToolCall? && first[0].id == OnlyUpdates(input).value
    ensures Introduces(input).None? && OnlyUpdates(input).None? ==> first == []
    ensures Introduces(input).None? && OnInput(turn, input).subscribed ==> OnInput(turn, input).started == turn.started
  {
    first, rest := [], [];
    if turn.subscribed && Introduces(input).Some? {
      first, rest := StartStep(turn, input.event);
    } else if turn.subscribed && input.FromSession? {
      hide OnStarted, OnDelta;
      rest := OtherStep(turn, input.event);
      if OnlyUpdates(input).Some? {
        first, rest := rest, [];
      }
    }
  }

  /** A start or a delta: one creation or update, and perhaps a plan. */
  lemma StartStep(turn: Turn, event: Event) returns (first: seq<Notification>, rest: seq<Notification>)
    requires IsFromMainAgent(event) && (event.body.ToolCallStarted? || event.body.ToolCallDelta?)
    ensures var id := AcpToolCallId(event.body.turnId, event.body.toolCallId);
      && OnEvent(turn, event).wire == turn.wire + first + rest && Unnumbered(rest)
      && |first| == 1
      && (if id in turn.started then first[0].UpdateToolCall? else first[0].CreateToolCall?) && first[0].id == id
      && OnEvent(turn, event).subscribed == turn.subscribed && OnEvent(turn, event).started == turn.started + {id}
  {
    hide AcpToolCallId, Track;
    var body := event.body;
    var id := AcpToolCallId(body.turnId, body.toolCallId);
    TrackKeeps(turn, event);
    var tracked := Track(turn, event);
    rest := if body.ToolCallStarted? then PlanOf(body.display) else [];
    if body.ToolCallStarted? {
      first := [if id in turn.started then StartedUpgradeToSessionUpdate(id, body) else StartToSessionUpdate(id, body)];
    } else if id in turn.started {
      first := [OnDelta(tracked, body).wire[|turn.wire|]];
    } else {
      first := [LazyCreateToSessionUpdate(id, body)];
    }
    if id in turn.started { assert turn.started + {id} == turn.started; }
  }

  lemma TrackKeeps(turn: Turn, event: Event)
    ensures var tracked := Track(turn, event);
      tracked == turn.(ownTurnStarted := tracked.ownTurnStarted, currentTurnId := tracked.currentTurnId)
  {
  }

  /** Any other event: an update for a progress status or a result, else nothing numbered. */
  lemma OtherStep(turn: Turn, event: Event) returns (notes: seq<Notification>)
    requires Introduces(FromSession(event)).None?
    ensures var next, id := OnEvent(turn, event), OnlyUpdates(FromSession(event));
      && next.wire == turn.wire + notes
      && (if id.Some? then |notes| == 1 && notes[0].UpdateToolCall? && notes[0].id == id.value else Unnumbered(notes))
      && (next.subscribed ==> next.started == turn.started)
  {
    hide OnStarted, OnDelta, AcpToolCallId, Track;
    TrackKeeps(turn, event);
    var main, body := IsFromMainAgent(event), event.body;
    notes := match body
      case AssistantDelta(_, delta) => if main then [AgentMessageChunk(delta)] else []
      case ThinkingDelta(_, delta) => if main then [AgentThoughtChunk(delta)] else []
      case ToolProgress(turnId, toolCallId, _, _) =>
        if main then ProgressToSessionUpdate(AcpToolCallId(turnId, toolCallId), body) else []
      case ToolResult(turnId, toolCallId, _, _) =>
        if main then [ResultToSessionUpdate(AcpToolCallId(turnId, toolCallId), body)] else []
      case _ => [];
  }

  lemma CreatedAppend(wire: seq<Notification>, notes: seq<Notification>, id: string)
    ensures Created(wire + notes, id) <==> Created(wire, id) || Created(notes, id)
  {
    var all := wire + notes;
    if k :| 0 <= k < |wire| && wire[k].CreateToolCall? && wire[k].id == id { assert all[k] == wire[k]; }
    if k :| 0 <= k < |notes| && notes[k].CreateToolCall? && notes[k].id == id { assert all[|wire| + k] == notes[k]; }
    if k :| 0 <= k < |all| && all[k].CreateToolCall? && all[k].id == id {
      assert if k < |wire| then wire[k] == all[k] else notes[k - |wire|] == all[k];
    }
  }

  lemma CreatedFirstOne(wire: seq<Notification>, note: Notification)
    ensures CreatedFirst(wire + [note]) <==> CreatedFirst(wire) && (note.UpdateToolCall? ==> Created(wire, note.id))
  {
    var all := wire + [note];
    assert forall k :: 0 <= k < |wire| ==> all[k] == wire[k] && all[..k] == wire[..k];
    assert all[|wire|] == note && all[..|wire|] == wire;
  }

  lemma {:induction false} UnnumberedAppend(wire: seq<Notification>, notes: seq<Notification>, id: string)
    requires Unnumbered(notes)
    ensures CreatedFirst(wire + notes) <==> CreatedFirst(wire)
    ensures Created(wire + notes, id) <==> Created(wire, id)
    ensures Creations(wire + notes, id) == Creations(wire, id)
  {
    CreatedAppend(wire, notes, id);
    if notes == [] {
      assert wire + notes == wire;
    } else {
      var k := |notes| - 1;
      UnnumberedAppend(wire, notes[..k], id);
      assert wire + notes == (wire + notes[..k]) + [notes[k]];
      assert (wire + notes)[..|wire + notes| - 1] == wire + notes[..k];
      CreatedFirstOne(wire + notes[..k], notes[k]);
    }
  }

  lemma CreationsOne(wire: seq<Notification>, note: Notification, id: string)
    ensures Creations(wire + [note], id) == Creations(wire, id) + (if note.CreateToolCall? && note.id == id then 1 else 0)
    ensures Created(wire + [note], id) <==> Created(wire, id) || (note.CreateToolCall? && note.id == id)
  {
    assert (wire + [note])[..|wire|] == wire;
    CreatedAppend(wire, [note], id);
    if note.CreateToolCall? && note.id == id { assert Created([note], id) by { assert [note][0] == note; } }
  }

  /** While the turn lasts, the ids marked started are those introduced and those created, each created once. */
  ghost predicate StartedOk(turn: Turn, inputs: seq<Input>, id: string) {
    && (turn.subscribed ==> (id in turn.started <==> Introduced(inputs, id)))
    && (turn.subscribed ==> (id in turn.started <==> Created(turn.wire, id)))
    && Creations(turn.wire, id) == if Created(turn.wire, id) then 1 else 0
  }

  lemma StartedStep(turn: Turn, inputs: seq<Input>, input: Input, id: string)
    requires StartedOk(turn, inputs, id)
    ensures StartedOk(OnInput(turn, input), inputs + [input], id)
  {
    hide OnInput, Created, Creations, Introduced, Introduces, OnlyUpdates, Unnumbered;
    var first, rest := WireStep(turn, input);
    UnnumberedAppend(turn.wire + first, rest, id);
    StaysUnsubscribed(turn, input);
    IntroducedSnoc(inputs, input, id);
    if |first| == 1 {
      assert first == [first[0]];
      CreationsOne(turn.wire, first[0], id);
    } else {
      assert turn.wire + first == turn.wire;
    }
  }

  lemma NothingStarted(activeTurnId: Option<int>, id: string)
    ensures StartedOk(Run(activeTurnId, []), [], id)
  {
    NothingSent(activeTurnId);
  }

  lemma {:induction false} StartedIds(activeTurnId: Option<int>, inputs: seq<Input>, id: string)
    ensures StartedOk(Run(activeTurnId, inputs), inputs, id)
  {
    hide OnInput, StartedOk, Run;
    if inputs == [] {
      NothingStarted(activeTurnId, id);
    } else {
      var front, last := inputs[..|inputs| - 1], inputs[|inputs| - 1];
      StartedIds(activeTurnId, front, id);
      StartedStep(Run(activeTurnId, front), front, last, id);
      RunSnoc(activeTurnId, front, last);
      assert inputs == front + [last];
    }
  }

  lemma StaysUnsubscribed(turn: Turn, input: Input)
    ensures OnInput(turn, input).subscribed ==> turn.subscribed
  {
  }

  lemma IntroducedSnoc(inputs: seq<Input>, input: Input, id: string)
    ensures Introduced(inputs + [input], id) <==> Introduced(inputs, id) || Introduces(input) == Some(id)
  {
    var all := inputs + [input];
    assert forall k :: 0 <= k < |inputs| ==> all[k] == inputs[k];
    assert all[|inputs|] == input;
  }

  /** No wire id is ever created twice. */
  lemma {:induction false} OneCreation(activeTurnId: Option<int>, inputs: seq<Input>, id: string)
    ensures Creations(Run(activeTurnId, inputs).wire, id) <= 1
  {
    StartedIds(activeTurnId, inputs, id);
  }

  lemma WellOrderedSnoc(activeTurnId: Option<int>, inputs: seq<Input>, input: Input)
    ensures WellOrdered(activeTurnId, inputs + [input]) <==>
      && WellOrdered(activeTurnId, inputs)
      && (OnlyUpdates(input).Some? && !Run(activeTurnId, inputs).settled ==>
            Introduced(inputs, OnlyUpdates(input).value))
  {
    hide Run, Introduced;
    var all := inputs + [input];
    assert forall k :: 0 <= k < |inputs| ==> all[k] == inputs[k] && all[..k] == inputs[..k];
    assert all[|inputs|] == input && all[..|inputs|] == inputs;
  }

  /**
   * The client sees every creation before its updates exactly when the session reports every
   * progress status and result after the call's first delta or start.
   */
  lemma {:induction false} CreatedFirstIff(activeTurnId: Option<int>, inputs: seq<Input>)
    ensures CreatedFirst(Run(activeTurnId, inputs).wire) <==> WellOrdered(activeTurnId, inputs)
  {
    if inputs != [] {
      hide OnInput, Introduced, Created, CreatedFirst, WellOrdered;
      var front, last := inputs[..|inputs| - 1], inputs[|inputs| - 1];
      assert inputs == front + [last];
      var before := Run(activeTurnId, front);
      CreatedFirstIff(activeTurnId, front);
      SettlesOnce(activeTurnId, front);
      WellOrderedSnoc(activeTurnId, front, last);
      var first, rest := WireStep(before, last);
      UnnumberedAppend(before.wire + first, rest, "");
      if first == [] {
        assert before.wire + first == before.wire;
      } else {
        assert first == [first[0]];
        CreatedFirstOne(before.wire, first[0]);
        if first[0].UpdateToolCall? { StartedIds(activeTurnId, front, first[0].id); }
      }
    } else {
      NothingSent(activeTurnId);
    }
  }

  lemma NothingSent(activeTurnId: Option<int>)
    ensures CreatedFirst(Run(activeTurnId, []).wire) && WellOrdered(activeTurnId, [])
    ensures forall id :: !Created([], id) && !Introduced([], id) && Creations([], id) == 0
  {
  }

  // ---------- The arguments a client sees ----------

  /** The raw id of a start or a delta. */
  function UsesRaw(input: Input): (raw: Option<string>) {
    if Introduces(input).Some? then Some(input.event.body.toolCallId) else None
  }

  /** The arguments of one wire id: what its last start carried, and its own deltas since. */
  function OwnText(inputs: seq<Input>, id: string): (text: string) {
    if inputs == [] then "" else
      var front, last := inputs[..|inputs| - 1], inputs[|inputs| - 1];
      if Introduces(last) != Some(id) then OwnText(front, id)
      else if last.event.body.ToolCallStarted? then last.event.body.args
      else OwnText(front, id) + last.event.body.argumentsPart.GetOr("")
  }

  /**
   * What the accumulator of a raw id holds: a start sets it, so does the first delta of a wire id,
   * and every other delta is appended, whichever turn it is from.
   */
  ghost function Accumulator(inputs: seq<Input>, raw: string): (text: string) {
    if inputs == [] then "" else
      var front, last := inputs[..|inputs| - 1], inputs[|inputs| - 1];
      if UsesRaw(last) != Some(raw) then Accumulator(front, raw)
      else if last.event.body.ToolCallStarted? then last.event.body.args
      else if !Introduced(front, Introduces(last).value) then last.event.body.argumentsPart.GetOr("")
      else Accumulator(front, raw) + last.event.body.argumentsPart.GetOr("")
  }

  function Held(turn: Turn, raw: string): (text: string) {
    if raw in turn.args then turn.args[raw] else ""
  }

  /** What one input does to the accumulator of a raw id. */
  lemma ArgsStep(turn: Turn, input: Input, raw: string)
    requires turn.subscribed && OnInput(turn, input).subscribed
    ensures Held(OnInput(turn, input), raw) ==
      if UsesRaw(input) != Some(raw) then Held(turn, raw)
      else if input.event.body.ToolCallStarted? then input.event.body.args
      else if Introduces(input).value !in turn.started then input.event.body.argumentsPart.GetOr("")
      else Held(turn, raw) + input.event.body.argumentsPart.GetOr("")
  {
    hide AcpToolCallId, PlanOf, StartToSessionUpdate, StartedUpgradeToSessionUpdate, LazyCreateToSessionUpdate, Track;
    hide ProgressToSessionUpdate, ResultToSessionUpdate;
    if input.FromSession? { TrackKeeps(turn, input.event); }
  }

  /** In every run, while it is subscribed, the accumulators hold that. */
  lemma {:induction false} Accumulated(activeTurnId: Option<int>, inputs: seq<Input>, raw: string)
    ensures var turn := Run(activeTurnId, inputs); turn.subscribed ==> Held(turn, raw) == Accumulator(inputs, raw)
  {
    if inputs != [] {
      hide OnInput, Introduced, AcpToolCallId, Held;
      var front, last := inputs[..|inputs| - 1], inputs[|inputs| - 1];
      var before := Run(activeTurnId, front);
      Accumulated(activeTurnId, front, raw);
      StaysUnsubscribed(before, last);
      if OnInput(before, last).subscribed {
        ArgsStep(before, last, raw);
        if UsesRaw(last) == Some(raw) { StartedIds(activeTurnId, front, Introduces(last).value); }
      }
    }
  }

  ghost predicate IsLaterDelta(activeTurnId: Option<int>, inputs: seq<Input>, delta: Input) {
    && Run(activeTurnId, inputs).subscribed
    && Introduces(delta).Some? && delta.event.body.ToolCallDelta?
    && Introduced(inputs, Introduces(delta).value)
  }

  /**
   * What a later delta shows, in every run: the accumulator and its own part.  That is the text of
   * its own call exactly when the accumulator held the text of that call.
   */
  lemma {:induction false} DeltaShowsOwnTextIff(activeTurnId: Option<int>, inputs: seq<Input>, delta: Input)
    requires IsLaterDelta(activeTurnId, inputs, delta)
    ensures var id, raw, part := Introduces(delta).value, delta.event.body.toolCallId, delta.event.body.argumentsPart.GetOr("");
      var before, after := Run(activeTurnId, inputs).wire, Run(activeTurnId, inputs + [delta]).wire;
      && after == before + [DeltaToSessionUpdate(id, Accumulator(inputs, raw) + part)]
      && (after == before + [DeltaToSessionUpdate(id, OwnText(inputs + [delta], id))]
          <==> Accumulator(inputs, raw) == OwnText(inputs, id))
  {
    hide AcpToolCallId, Accumulator;
    var all, id, raw := inputs + [delta], Introduces(delta).value, delta.event.body.toolCallId;
    var part := delta.event.body.argumentsPart.GetOr("");
    assert all[..|inputs|] == inputs && all[|inputs|] == delta;
    var before := Run(activeTurnId, inputs);
    Accumulated(activeTurnId, inputs, raw);
    StartedIds(activeTurnId, inputs, id);
    RunSnoc(activeTurnId, inputs, delta);
    TrackKeeps(before, delta.event);
    var shown, own := DeltaToSessionUpdate(id, Accumulator(inputs, raw) + part), DeltaToSessionUpdate(id, OwnText(all, id));
    assert (before.wire + [shown])[|before.wire|] == shown && (before.wire + [own])[|before.wire|] == own;
    SameBeforePart(Accumulator(inputs, raw), OwnText(inputs, id), part);
  }

  lemma SameBeforePart(a: string, b: string, part: string)
    ensures a + part == b + part <==> a == b
  {
    if a + part == b + part {
      assert a == (a + part)[..|a|] && b == (b + part)[..|b|];
    }
  }

  // ---------- Which event sequences mix the texts of two calls ----------

  /** Since the last start or the first delta of this call, another call has used its raw id. */
  ghost predicate Mixed(inputs: seq<Input>, turnId: int, raw: string) {
    inputs != [] &&
    var front, last := inputs[..|inputs| - 1], inputs[|inputs| - 1];
    if UsesRaw(last) != Some(raw) then Mixed(front, turnId, raw)
    else if last.event.body.turnId != turnId then true
    else !last.event.body.ToolCallStarted? && Introduced(front, Introduces(last).value) && Mixed(front, turnId, raw)
  }

  /** The same events with other texts: none for one call, and "y" for all others. */
  function Retext(inputs: seq<Input>, turnId: int, raw: string): (other: seq<Input>)
    ensures |other| == |inputs|
  {
    seq(|inputs|, i requires 0 <= i < |inputs| => RetextInput(inputs[i], turnId, raw))
  }

  function RetextInput(input: Input, turnId: int, raw: string): (other: Input)
    ensures Introduces(other) == Introduces(input) && UsesRaw(other) == UsesRaw(input)
  {
    if Introduces(input).None? then input else
      var body := input.event.body;
      var text := if body.turnId == turnId && body.toolCallId == raw then "" else "y";
      var changed := if body.ToolCallStarted? then body.(args := text) else body.(argumentsPart := Some(text));
      FromSession(input.event.(body := changed))
  }

  lemma {:induction false} NotIntroducedYet(inputs: seq<Input>, id: string)
    requires !Introduced(inputs, id)
    ensures OwnText(inputs, id) == ""
  {
    if inputs != [] {
      var front, last := inputs[..|inputs| - 1], inputs[|inputs| - 1];
      assert inputs == front + [last];
      IntroducedSnoc(front, last, id);
      NotIntroducedYet(front, id);
    }
  }

  /** The accumulator of a call nobody mixed into holds the text of that call. */
  lemma {:induction false} UnmixedHoldsOwnText(inputs: seq<Input>, turnId: int, raw: string)
    requires Introduced(inputs, AcpToolCallId(turnId, raw)) && !Mixed(inputs, turnId, raw)
    ensures Accumulator(inputs, raw) == OwnText(inputs, AcpToolCallId(turnId, raw))
  {
    hide AcpToolCallId;
    assert inputs != [];
    hide Introduced;
    var front, last, id := inputs[..|inputs| - 1], inputs[|inputs| - 1], AcpToolCallId(turnId, raw);
    assert inputs == front + [last];
    IntroducedSnoc(front, last, id);
    if Introduces(last).Some? { WireIdsDistinct(last.event.body.turnId, last.event.body.toolCallId, turnId, raw); }
    if Introduced(front, id) {
      if !Mixed(front, turnId, raw) { UnmixedHoldsOwnText(front, turnId, raw); }
    } else {
      NotIntroducedYet(front, id);
    }
  }

  lemma {:induction false} RetextIntroduces(inputs: seq<Input>, turnId: int, raw: string, id: string)
    ensures Introduced(Retext(inputs, turnId, raw), id) <==> Introduced(inputs, id)
  {
    hide RetextInput;
    var other := Retext(inputs, turnId, raw);
    assert forall i :: 0 <= i < |inputs| ==> Introduces(other[i]) == Introduces(inputs[i]);
  }

  /** In the other texts the call has none, but the accumulator has some as soon as another call mixed into it. */
  lemma {:induction false} MixedHoldsForeignText(inputs: seq<Input>, turnId: int, raw: string)
    ensures var other := Retext(inputs, turnId, raw);
      && OwnText(other, AcpToolCallId(turnId, raw)) == ""
      && (Mixed(inputs, turnId, raw) ==> Accumulator(other, raw) != "")
  {
    hide AcpToolCallId, Introduced;
    if inputs != [] {
      var front, last := inputs[..|inputs| - 1], inputs[|inputs| - 1];
      var other := Retext(inputs, turnId, raw);
      MixedHoldsForeignText(front, turnId, raw);
      assert other[..|front|] == Retext(front, turnId, raw) && other[|front|] == RetextInput(last, turnId, raw);
      if Introduces(last).Some? {
        WireIdsDistinct(last.event.body.turnId, last.event.body.toolCallId, turnId, raw);
        RetextIntroduces(front, turnId, raw, Introduces(last).value);
      }
    }
  }

  /** The delta sends one update, with the arguments of its own call so far. */
  ghost predicate ShowsOwnText(activeTurnId: Option<int>, inputs: seq<Input>, delta: Input)
    requires Introduces(delta).Some?
  {
    var id := Introduces(delta).value;
    Run(activeTurnId, inputs + [delta]).wire
      == Run(activeTurnId, inputs).wire + [DeltaToSessionUpdate(id, OwnText(inputs + [delta], id))]
  }

  /** Unmixed, each delta update replaces the card's text by exactly its own call's arguments so far. */
  lemma {:induction false} DeltaShowsOwnText(activeTurnId: Option<int>, inputs: seq<Input>, delta: Input)
    requires IsLaterDelta(activeTurnId, inputs, delta)
    requires !Mixed(inputs, delta.event.body.turnId, delta.event.body.toolCallId)
    ensures ShowsOwnText(activeTurnId, inputs, delta)
  {
    hide AcpToolCallId, Accumulator, OwnText, Mixed, Introduced, Run, DeltaToSessionUpdate;
    DeltaShowsOwnTextIff(activeTurnId, inputs, delta);
    UnmixedHoldsOwnText(inputs, delta.event.body.turnId, delta.event.body.toolCallId);
  }

  /** The prompt has got equally far in both, whatever has been sent. */
  ghost predicate SameCourse(a: Turn, b: Turn) {
    && a.settled == b.settled && a.subscribed == b.subscribed
    && a.ownTurnStarted == b.ownTurnStarted && a.initialTurnId == b.initialTurnId
  }

  lemma CallsKeepCourse(turn: Turn, body: Body)
    ensures body.ToolCallStarted? ==> SameCourse(turn, OnStarted(turn, body))
    ensures body.ToolCallDelta? ==> SameCourse(turn, OnDelta(turn, body))
  {
    hide AcpToolCallId, StartToSessionUpdate, StartedUpgradeToSessionUpdate, LazyCreateToSessionUpdate, PlanOf;
  }

  lemma TrackKeepsCourse(a: Turn, b: Turn, event: Event, other: Event)
    requires SameCourse(a, b) && IsFromMainAgent(other) == IsFromMainAgent(event)
    requires other.body == event.body || !(event.body.TurnStarted? || other.body.TurnStarted?)
    ensures SameCourse(Track(a, event), Track(b, other))
  {
  }

  lemma RetextStep(a: Turn, b: Turn, input: Input, turnId: int, raw: string)
    requires SameCourse(a, b)
    ensures SameCourse(OnInput(a, input), OnInput(b, RetextInput(input, turnId, raw)))
  {
    hide AcpToolCallId, OnStarted, OnDelta, ResultToSessionUpdate, ProgressToSessionUpdate, Track;
    if input.FromSession? {
      var other := RetextInput(input, turnId, raw).event;
      TrackKeepsCourse(a, b, input.event, other);
      CallsKeepCourse(Track(a, input.event), input.event.body);
      CallsKeepCourse(Track(b, other), other.body);
    }
  }

  lemma {:induction false} RetextRuns(activeTurnId: Option<int>, inputs: seq<Input>, turnId: int, raw: string)
    ensures SameCourse(Run(activeTurnId, inputs), Run(activeTurnId, Retext(inputs, turnId, raw)))
  {
    if inputs != [] {
      hide OnInput, RetextInput, SameCourse;
      var front, last := inputs[..|inputs| - 1], inputs[|inputs| - 1];
      var other := Retext(inputs, turnId, raw);
      RetextRuns(activeTurnId, front, turnId, raw);
      assert other[..|front|] == Retext(front, turnId, raw) && other[|front|] == RetextInput(last, turnId, raw);
      RetextStep(Run(activeTurnId, front), Run(activeTurnId, Retext(front, turnId, raw)), last, turnId, raw);
    }
  }

  /**
   * A later delta shows the text of its own call whatever the texts are, if and only if no other call
   * has used its raw id since that call's last start or first delta: else the same events with
   * other texts make it show a wrong one.
   */
  lemma {:induction false} OwnTextIffUnmixed(activeTurnId: Option<int>, inputs: seq<Input>, delta: Input)
    requires IsLaterDelta(activeTurnId, inputs, delta)
    ensures var turnId, raw := delta.event.body.turnId, delta.event.body.toolCallId;
      var other := Retext(inputs, turnId, raw);
      if Mixed(inputs, turnId, raw)
      then IsLaterDelta(activeTurnId, other, delta) && !ShowsOwnText(activeTurnId, other, delta)
      else ShowsOwnText(activeTurnId, inputs, delta)
  {
    hide AcpToolCallId, Accumulator, OwnText, Mixed, Introduced, Run, Retext, DeltaToSessionUpdate;
    var turnId, raw := delta.event.body.turnId, delta.event.body.toolCallId;
    if Mixed(inputs, turnId, raw) {
      var other := Retext(inputs, turnId, raw);
      RetextRuns(activeTurnId, inputs, turnId, raw);
      RetextIntroduces(inputs, turnId, raw, Introduces(delta).value);
      DeltaShowsOwnTextIff(activeTurnId, other, delta);
      MixedHoldsForeignText(inputs, turnId, raw);
    } else {
      DeltaShowsOwnText(activeTurnId, inputs, delta);
    }
  }

  /** While only one turn runs, which is how the agent runs its turns, no texts are mixed. */
  lemma {:induction false} OneTurnNeverMixes(inputs: seq<Input>, turnId: int, raw: string)
    requires forall input <- inputs :: Introduces(input).Some? ==> input.event.body.turnId == turnId
    ensures !Mixed(inputs, turnId, raw)
  {
    if inputs != [] { OneTurnNeverMixes(inputs[..|inputs| - 1], turnId, raw); }
  }

  function DeltaInput(turnId: int, raw: string, part: string): (input: Input) {
    FromSession(Event(None, ToolCallDelta(turnId, raw, None, Some(part))))
  }

  /** Two turns streaming under one raw id at once: the first shows its own text only if it equals the second's. */
  lemma {:induction false} InterleavedTurnsMix(t1: int, t2: int, raw: string, a: string, b: string, c: string)
    requires t1 != t2
    ensures
      var inputs, id := [DeltaInput(t1, raw, a), DeltaInput(t2, raw, b)], AcpToolCallId(t1, raw);
      var before, after := Run(None, inputs).wire, Run(None, inputs + [DeltaInput(t1, raw, c)]).wire;
      && after == before + [DeltaToSessionUpdate(id, b + c)]
      && (after == before + [DeltaToSessionUpdate(id, OwnText(inputs + [DeltaInput(t1, raw, c)], id))] <==> a == b)
  {
    var d1, d2, d3 := DeltaInput(t1, raw, a), DeltaInput(t2, raw, b), DeltaInput(t1, raw, c);
    var inputs, id := [d1, d2], AcpToolCallId(t1, raw);
    WireIdsDistinct(t1, raw, t2, raw);
    hide AcpToolCallId;
    assert inputs[..1] == [d1] && [d1][..0] == [];
    assert Introduced(inputs, id) by { assert Introduces(inputs[0]) == Some(id); }
    assert !Introduced([d1], Introduces(d2).value);
    assert Accumulator(inputs, raw) == b;
    assert OwnText(inputs, id) == OwnText([d1], id) == OwnText([], id) + a == a;
    StaysSubscribed(None, inputs);
    hide Run, Accumulator, OwnText, DeltaToSessionUpdate;
    DeltaShowsOwnTextIff(None, inputs, d3);
  }

  /** Deltas never end the subscription. */
  lemma {:induction false} StaysSubscribed(activeTurnId: Option<int>, inputs: seq<Input>)
    requires forall input <- inputs :: input.FromSession? && input.event.body.ToolCallDelta?
    ensures Run(activeTurnId, inputs).subscribed
  {
    if inputs != [] {
      hide AcpToolCallId, DeltaToSessionUpdate, LazyCreateToSessionUpdate, OnStarted, PlanOf;
      hide ProgressToSessionUpdate, ResultToSessionUpdate;
      StaysSubscribed(activeTurnId, inputs[..|inputs| - 1]);
    }
  }

  // ---------- What the client sees ----------

  /** The kinds clients have an icon for; any other tool is `Other`. */
  lemma KindsIff(name: string)
    ensures InferToolKind(name) == Read <==> name in {"Read", "Glob", "Grep"}
    ensures InferToolKind(name) == Edit <==> name in {"Write", "Edit"}
    ensures InferToolKind(name) == Execute <==> name in {"Bash", "Terminal"}
    ensures InferToolKind(name) == Fetch <==> name in {"WebFetch", "WebSearch"}
    ensures InferToolKind(name) == Think <==> name == "Think"
  {
  }

  /** A diff is shown, from the text before to the text after, when both are known. */
  lemma DiffIff(display: Option<Display>)
    ensures |DiffOf(display)| <= 1
    ensures forall path, old_, new_ :: DiffContent(path, old_, new_) in DiffOf(display) <==>
      display == Some(Diff(path, old_, new_)) || display == Some(FileIo(path, Some(old_), Some(new_)))
    ensures forall content <- DiffOf(display) :: content.DiffContent?
  {
  }

  /** The last turn the main agent has named, or the one that was active at the beginning. */
  ghost predicate NamedLast(activeTurnId: Option<int>, inputs: seq<Input>, current: Option<int>) {
    && (forall k: nat :: LastNaming(inputs, k) ==> current == TurnIdOf(inputs[k].event.body))
    && ((forall k: nat :: k < |inputs| ==> !NamesTurn(inputs[k])) ==> current == activeTurnId)
  }

  /** An event of the main agent that carries a turn id: every kind but errors, and some of the other kinds. */
  predicate NamesTurn(input: Input) {
    IsMain(input) && !input.event.body.ErrorEvent? && (input.event.body.OtherEvent? ==> input.event.body.maybeTurnId.Some?)
  }

  ghost predicate LastNaming(inputs: seq<Input>, k: nat) {
    k < |inputs| && NamesTurn(inputs[k]) && forall j :: k < j < |inputs| ==> !NamesTurn(inputs[j])
  }

  /** While the prompt lasts, approvals are attributed to the turn the main agent has named last. */
  lemma {:induction false} CurrentTurn(activeTurnId: Option<int>, inputs: seq<Input>)
    ensures var turn := Run(activeTurnId, inputs);
      turn.subscribed ==> NamedLast(activeTurnId, inputs, turn.currentTurnId)
  {
    if inputs != [] {
      var n := |inputs| - 1;
      var front, last := inputs[..n], inputs[n];
      CurrentTurn(activeTurnId, front);
      var before := Run(activeTurnId, front);
      StaysUnsubscribed(before, last);
      RunSnoc(activeTurnId, front, last);
      assert inputs == front + [last];
      hide Run, OnInput, NamedLast;
      if OnInput(before, last).subscribed {
        CurrentTurnStep(before, last);
        NamedLastSnoc(activeTurnId, front, last, before.currentTurnId);
      }
    }
  }

  lemma CurrentTurnStep(turn: Turn, input: Input)
    requires OnInput(turn, input).subscribed
    ensures OnInput(turn, input).currentTurnId == if NamesTurn(input) then TurnIdOf(input.event.body) else turn.currentTurnId
  {
    hide AcpToolCallId, StartToSessionUpdate, StartedUpgradeToSessionUpdate, LazyCreateToSessionUpdate, PlanOf;
    hide ResultToSessionUpdate, ProgressToSessionUpdate, DeltaToSessionUpdate;
  }

  lemma NamedLastSnoc(activeTurnId: Option<int>, inputs: seq<Input>, input: Input, current: Option<int>)
    requires NamedLast(activeTurnId, inputs, current)
    ensures NamedLast(activeTurnId, inputs + [input], if NamesTurn(input) then TurnIdOf(input.event.body) else current)
  {
    hide TurnIdOf;
    var all := inputs + [input];
    assert all[|inputs|] == input && forall j :: 0 <= j < |inputs| ==> all[j] == inputs[j];
    if !NamesTurn(input) {
      forall k: nat | LastNaming(all, k)
        ensures LastNaming(inputs, k) && all[k] == inputs[k]
      {
      }
    }
  }

  /** A tool call as a client shows it. */
  datatype Card = Card(title: string, kind: ToolKind, status: Status, rawInput: Option<string>, content: seq<Content>)

  /** A creation makes a card; an update replaces the fields it carries, on a card there is. */
  function Shown(card: Option<Card>, note: Notification, id: string): (next: Option<Card>) {
    match note
    case CreateToolCall(i, title, kind, status, rawInput, content) =>
      if i == id then Some(Card(title, kind, status, rawInput, content)) else card
    case UpdateToolCall(i, title, kind, status, rawInput, content) =>
      if i == id && card.Some? then
        Some(Card(title.GetOr(card.value.title), kind.GetOr(card.value.kind), status.GetOr(card.value.status),
                  if rawInput.Some? then rawInput else card.value.rawInput, content.GetOr(card.value.content)))
      else card
    case _ => card
  }

  function View(wire: seq<Notification>, id: string): (card: Option<Card>) {
    if wire == [] then None else Shown(View(wire[..|wire| - 1], id), wire[|wire| - 1], id)
  }

  lemma ViewSnoc(wire: seq<Notification>, note: Notification, id: string)
    ensures View(wire + [note], id) == Shown(View(wire, id), note, id)
  {
    assert (wire + [note])[..|wire|] == wire;
  }

  /** Notifications without an id change no card. */
  lemma {:induction false} ViewUnnumbered(wire: seq<Notification>, notes: seq<Notification>, id: string)
    requires Unnumbered(notes)
    ensures View(wire + notes, id) == View(wire, id)
  {
    if notes == [] {
      assert wire + notes == wire;
    } else {
      var k := |notes| - 1;
      ViewUnnumbered(wire, notes[..k], id);
      assert wire + notes == (wire + notes[..k]) + [notes[k]];
      ViewSnoc(wire + notes[..k], notes[k], id);
    }
  }

  /** There is a card for what has been created. */
  lemma {:induction false} CreatedIsShown(wire: seq<Notification>, id: string)
    ensures View(wire, id).Some? <==> Created(wire, id)
  {
    if wire != [] {
      var n := |wire| - 1;
      CreatedIsShown(wire[..n], id);
      CreationsOne(wire[..n], wire[n], id);
      assert wire == wire[..n] + [wire[n]];
    }
  }

  /** What a start leaves on the client's screen, whether or not deltas have created the card before. */
  lemma {:induction false} CardAfterStart(activeTurnId: Option<int>, inputs: seq<Input>, input: Input)
    requires Run(activeTurnId, inputs).subscribed && IsMain(input) && input.event.body.ToolCallStarted?
    ensures var body := input.event.body;
      View(Run(activeTurnId, inputs + [input]).wire, AcpToolCallId(body.turnId, body.toolCallId))
        == Some(Card(if body.description.Some? then body.description.value else body.name, InferToolKind(body.name),
                     InProgress, Some(body.args), DiffOf(body.display) + [TextContent(body.args)]))
  {
    hide AcpToolCallId, PlanOf, DiffOf, InferToolKind, View;
    var before, body := Run(activeTurnId, inputs), input.event.body;
    var id := AcpToolCallId(body.turnId, body.toolCallId);
    RunSnoc(activeTurnId, inputs, input);
    TrackKeeps(before, input.event);
    StartedIds(activeTurnId, inputs, id);
    CreatedIsShown(before.wire, id);
    PlanUnnumbered(body.display);
    var note := if id in before.started then StartedUpgradeToSessionUpdate(id, body) else StartToSessionUpdate(id, body);
    ViewSnoc(before.wire, note, id);
    ViewUnnumbered(before.wire + [note], PlanOf(body.display), id);
  }

  lemma PlanUnnumbered(display: Option<Display>)
    ensures Unnumbered(PlanOf(display))
  {
  }

  /** What a delta leaves: a pending card at first, then a card in progress that shows the accumulated text. */
  lemma {:induction false} CardAfterDelta(activeTurnId: Option<int>, inputs: seq<Input>, input: Input)
    requires Run(activeTurnId, inputs).subscribed && IsMain(input) && input.event.body.ToolCallDelta?
    ensures var body := input.event.body;
      var id, part := AcpToolCallId(body.turnId, body.toolCallId), body.argumentsPart.GetOr("");
      var before, after := View(Run(activeTurnId, inputs).wire, id), View(Run(activeTurnId, inputs + [input]).wire, id);
      if Introduced(inputs, id) then
        before.Some? && after == Some(before.value.(status := InProgress,
                                                   content := [TextContent(Accumulator(inputs, body.toolCallId) + part)]))
      else
        before.None? && after.Some? && after.value.status == Pending && after.value.rawInput.None?
        && after.value.content == [TextContent(part)] && after.value.title == body.maybeName.GetOr("tool")
        && after.value.kind == if body.maybeName.GetOr("") == "" then Other else InferToolKind(body.maybeName.value)
  {
    hide AcpToolCallId, Accumulator, InferToolKind, View;
    var before, body := Run(activeTurnId, inputs), input.event.body;
    var id := AcpToolCallId(body.turnId, body.toolCallId);
    RunSnoc(activeTurnId, inputs, input);
    TrackKeeps(before, input.event);
    Accumulated(activeTurnId, inputs, body.toolCallId);
    StartedIds(activeTurnId, inputs, id);
    CreatedIsShown(before.wire, id);
    var note := if id in before.started then DeltaToSessionUpdate(id, Accumulator(inputs, body.toolCallId) + body.argumentsPart.GetOr(""))
                else LazyCreateToSessionUpdate(id, body);
    ViewSnoc(before.wire, note, id);
  }

  /** What a progress status and a result leave of a card: a new title, or the outcome and the output. */
  lemma {:induction false} CardAfterOutcome(activeTurnId: Option<int>, inputs: seq<Input>, input: Input)
    requires Run(activeTurnId, inputs).subscribed && IsMain(input)
    requires input.event.body.ToolProgress? || input.event.body.ToolResult?
    ensures var body := input.event.body;
      var id := AcpToolCallId(body.turnId, body.toolCallId);
      var before, after := View(Run(activeTurnId, inputs).wire, id), View(Run(activeTurnId, inputs + [input]).wire, id);
      if before.None? then after.None?
      else if body.ToolResult? then
        after == Some(before.value.(status := if body.isError then StatusFailed else StatusCompleted, content := body.output))
      else after == Some(before.value.(title := if body.isStatus && body.text != "" then body.text else before.value.title))
  {
    hide AcpToolCallId, View;
    var before, body := Run(activeTurnId, inputs), input.event.body;
    var id := AcpToolCallId(body.turnId, body.toolCallId);
    RunSnoc(activeTurnId, inputs, input);
    TrackKeeps(before, input.event);
    if body.ToolResult? {
      ViewSnoc(before.wire, ResultToSessionUpdate(id, body), id);
    } else {
      var notes := ProgressToSessionUpdate(id, body);
      if notes == [] { assert before.wire + notes == before.wire; } else { ViewSnoc(before.wire, notes[0], id); }
    }
  }

  /** The plan a start sends: the titles in order, with done and completed items completed. */
  lemma {:induction false} PlanAfterStart(activeTurnId: Option<int>, inputs: seq<Input>, input: Input, items: seq<TodoItem>)
    requires Run(activeTurnId, inputs).subscribed && IsMain(input) && input.event.body.ToolCallStarted?
    requires input.event.body.display == Some(TodoList(items)) && items != []
    ensures var wire := Run(activeTurnId, inputs + [input]).wire;
      && wire != [] && wire[|wire| - 1].Plan?
      && var entries := wire[|wire| - 1].entries;
      && |entries| == |items|
      && forall i :: 0 <= i < |items| ==>
           && entries[i].content == items[i].title
           && (entries[i].status == InProgress <==> items[i].status == "in_progress")
           && (entries[i].status == StatusCompleted <==> items[i].status in {"done", "completed"})
           && (entries[i].status == Pending <==> items[i].status !in {"in_progress", "done", "completed"})
  {
    hide AcpToolCallId, DiffOf, InferToolKind;
    RunSnoc(activeTurnId, inputs, input);
    TrackKeeps(Run(activeTurnId, inputs), input.event);
    hide Run;
    assert |PlanOf(input.event.body.display)| == 1;
  }

  function ChunkText(note: Notification, thought: bool): (text: string) {
    match note
    case AgentMessageChunk(text) => if thought then "" else text
    case AgentThoughtChunk(text) => if thought then text else ""
    case _ => ""
  }

  /** All the message text, or all the thoughts, that the client has been sent. */
  function Streamed(wire: seq<Notification>, thought: bool): (text: string) {
    if wire == [] then "" else Streamed(wire[..|wire| - 1], thought) + ChunkText(wire[|wire| - 1], thought)
  }

  /** What the main agent says, or thinks, in one input. */
  function Spoken(input: Input, thought: bool): (text: string) {
    if !IsMain(input) then ""
    else
      match input.event.body
      case AssistantDelta(_, delta) => if thought then "" else delta
      case ThinkingDelta(_, delta) => if thought then delta else ""
      case _ => ""
  }

  /** All the message text, or all the thoughts, of the main agent while the prompt lasts. */
  ghost function Said(activeTurnId: Option<int>, inputs: seq<Input>, thought: bool): (text: string) {
    if inputs == [] then "" else
      var front, last := inputs[..|inputs| - 1], inputs[|inputs| - 1];
      Said(activeTurnId, front, thought) +
        if exists k: nat :: CanSettle(activeTurnId, front, k) then "" else Spoken(last, thought)
  }

  lemma {:induction false} StreamedAppend(wire: seq<Notification>, notes: seq<Notification>, thought: bool)
    ensures Streamed(wire + notes, thought) == Streamed(wire, thought) + Streamed(notes, thought)
  {
    hide ChunkText;
    if notes == [] {
      assert wire + notes == wire && Streamed(wire, thought) + "" == Streamed(wire, thought);
    } else {
      var k := |notes| - 1;
      StreamedAppend(wire, notes[..k], thought);
      assert (wire + notes)[..|wire| + k] == wire + notes[..k] && (wire + notes)[|wire| + k] == notes[k];
    }
  }

  /** What one input streams. */
  lemma StreamStep(turn: Turn, input: Input, thought: bool) returns (notes: seq<Notification>)
    ensures OnInput(turn, input).wire == turn.wire + notes
    ensures Streamed(notes, thought) ==
      if turn.subscribed then Spoken(input, thought) else ""
  {
    hide AcpToolCallId;
    if turn.subscribed && Introduces(input).Some? {
      var first, rest := StartStep(turn, input.event);
      notes := first + rest;
      TrackKeeps(turn, input.event);
      SilentStart(turn, input, notes, thought);
    } else if turn.subscribed && input.FromSession? {
      hide OnStarted, OnDelta;
      notes := OtherStep(turn, input.event);
      TrackKeeps(turn, input.event);
      StreamedOne(turn, input, notes, thought);
    } else {
      notes := [];
      assert turn.wire + [] == turn.wire;
    }
  }

  lemma {:induction false} NoChunks(notes: seq<Notification>, thought: bool)
    requires forall note <- notes :: !note.AgentMessageChunk? && !note.AgentThoughtChunk?
    ensures Streamed(notes, thought) == ""
  {
    if notes != [] { NoChunks(notes[..|notes| - 1], thought); }
  }

  /** A start or a delta sends one notification about a call, and perhaps a plan. */
  lemma CallWire(turn: Turn, event: Event) returns (note: Notification)
    requires IsFromMainAgent(event) && (event.body.ToolCallStarted? || event.body.ToolCallDelta?)
    ensures !note.AgentMessageChunk? && !note.AgentThoughtChunk?
    ensures OnEvent(turn, event).wire ==
      turn.wire + ([note] + if event.body.ToolCallStarted? then PlanOf(event.body.display) else [])
  {
    hide AcpToolCallId, Track, DiffOf, InferToolKind, PlanOf;
    TrackKeeps(turn, event);
    var wire := OnEvent(turn, event).wire;
    note := wire[|turn.wire|];
    if event.body.ToolCallStarted? { Associate(turn.wire, [note], PlanOf(event.body.display)); }
  }

  lemma PlanIsNoChunk(display: Option<Display>)
    ensures forall note <- PlanOf(display) :: note.Plan?
  {
  }

  lemma {:induction false} SilentStart(turn: Turn, input: Input, notes: seq<Notification>, thought: bool)
    requires turn.subscribed && Introduces(input).Some? && OnInput(turn, input).wire == turn.wire + notes
    ensures Streamed(notes, thought) == ""
  {
    hide AcpToolCallId, PlanOf, OnEvent;
    var note := CallWire(turn, input.event);
    if input.event.body.ToolCallStarted? { PlanIsNoChunk(input.event.body.display); }
    assert notes == (turn.wire + notes)[|turn.wire|..];
    NoChunks(notes, thought);
  }

  lemma {:induction false} StreamedOne(turn: Turn, input: Input, notes: seq<Notification>, thought: bool)
    requires turn.subscribed && input.FromSession? && Introduces(input).None?
    requires OnInput(turn, input).wire == turn.wire + notes
    ensures Streamed(notes, thought) == Spoken(input, thought)
  {
    hide AcpToolCallId, OnStarted, OnDelta, Track;
    TrackKeeps(turn, input.event);
    var wire := OnInput(turn, input).wire;
    assert forall i :: 0 <= i < |notes| ==> notes[i] == wire[|turn.wire| + i];
    assert |notes| <= 1;
    if |notes| == 1 { assert notes[..0] == []; }
  }

  lemma SubscribedUntilSettled(activeTurnId: Option<int>, inputs: seq<Input>)
    ensures Run(activeTurnId, inputs).subscribed <==> !exists k: nat :: CanSettle(activeTurnId, inputs, k)
  {
    hide Run, CanSettle, IsAnswer;
    SettlementIs(activeTurnId, inputs);
    SettlesOnce(activeTurnId, inputs);
  }

  lemma {:induction false} SaidSnoc(activeTurnId: Option<int>, inputs: seq<Input>, input: Input, thought: bool)
    ensures Said(activeTurnId, inputs + [input], thought) == Said(activeTurnId, inputs, thought)
         + if Run(activeTurnId, inputs).subscribed then Spoken(input, thought) else ""
  {
    hide CanSettle, Run, Spoken;
    assert (inputs + [input])[..|inputs|] == inputs;
    SubscribedUntilSettled(activeTurnId, inputs);
  }

  lemma NothingSaid(activeTurnId: Option<int>, thought: bool)
    ensures Streamed(Run(activeTurnId, []).wire, thought) == "" && Said(activeTurnId, [], thought) == ""
  {
  }

  /** Over every run the client is sent exactly the text and the thoughts of the main agent, in order. */
  lemma {:induction false} TextConserved(activeTurnId: Option<int>, inputs: seq<Input>, thought: bool)
    ensures Streamed(Run(activeTurnId, inputs).wire, thought) == Said(activeTurnId, inputs, thought)
  {
    hide OnInput, Run, Spoken, Said, Streamed;
    if inputs == [] {
      NothingSaid(activeTurnId, thought);
    } else {
      var front, last := inputs[..|inputs| - 1], inputs[|inputs| - 1];
      TextConserved(activeTurnId, front, thought);
      var before := Run(activeTurnId, front);
      var notes := StreamStep(before, last, thought);
      StreamedAppend(before.wire, notes, thought);
      RunSnoc(activeTurnId, front, last);
      SaidSnoc(activeTurnId, front, last, thought);
      assert inputs == front + [last];
    }
  }

  // ---------- The closure ----------

  /** The variables `runTurnBody` shares between the listener and the rejection handler. */
  class TurnBody {
    var settled: bool
    var subscribed: bool
    var currentTurnId: Option<int>
    const initialActiveTurnId: Option<int>
    var hasReceivedOwnTurnStarted: bool
    var argsByToolCall: map<string, string>
    var startedToolCalls: set<string>
    var wire: seq<Notification>
    var settlements: seq<Settlement>

    function State(): (turn: Turn)
      reads this
    {
      Turn(settled, subscribed, currentTurnId, initialActiveTurnId, hasReceivedOwnTurnStarted,
           argsByToolCall, startedToolCalls, wire, settlements)
    }

    constructor (activeTurnId: Option<int>)
      ensures State() == Run(activeTurnId, [])
    {
      settled, subscribed, hasReceivedOwnTurnStarted := false, true, false;
      currentTurnId, initialActiveTurnId := activeTurnId, activeTurnId;
      argsByToolCall, startedToolCalls, wire, settlements := map[], {}, [], [];
    }

    /** `conn.sessionUpdate`. */
    method SessionUpdate(note: Notification)
      modifies this`wire
      ensures wire == old(wire) + [note]
    {
      wire := wire + [note];
    }

    /** Settling from the listener. */
    method Finish(settlement: Settlement)
      modifies this
      ensures State() == Settle(old(State()), settlement)
    {
      settled := true;
      argsByToolCall := map[];
      startedToolCalls := {};
      currentTurnId := None;
      subscribed := false;
      settlements := settlements + [settlement];
    }

    method HandleToolCallStarted(event: Body)
      requires event.ToolCallStarted?
      modifies this
      ensures State() == OnStarted(old(State()), event)
    {
      hide AcpToolCallId, StartToSessionUpdate, StartedUpgradeToSessionUpdate;
      argsByToolCall := argsByToolCall[event.toolCallId := event.args];
      var startedWireId := AcpToolCallId(event.turnId, event.toolCallId);
      if startedWireId in startedToolCalls {
        SessionUpdate(StartedUpgradeToSessionUpdate(startedWireId, event));
      } else {
        startedToolCalls := startedToolCalls + {startedWireId};
        SessionUpdate(StartToSessionUpdate(startedWireId, event));
      }
      var planNote := PlanOf(event.display);
      if |planNote| > 0 {
        SessionUpdate(planNote[0]);
      }
    }

    method HandleToolCallDelta(event: Body)
      requires event.ToolCallDelta?
      modifies this
      ensures State() == OnDelta(old(State()), event)
    {
      hide AcpToolCallId, LazyCreateToSessionUpdate;
      var deltaWireId := AcpToolCallId(event.turnId, event.toolCallId);
      if deltaWireId !in startedToolCalls {
        var initial := event.argumentsPart.GetOr("");
        argsByToolCall := argsByToolCall[event.toolCallId := initial];
        startedToolCalls := startedToolCalls + {deltaWireId};
        SessionUpdate(LazyCreateToSessionUpdate(deltaWireId, event));
        return;
      }
      var acc := if event.toolCallId in argsByToolCall then argsByToolCall[event.toolCallId] else "";
      acc := acc + event.argumentsPart.GetOr("");
      argsByToolCall := argsByToolCall[event.toolCallId := acc];
      SessionUpdate(DeltaToSessionUpdate(deltaWireId, acc));
    }

    /** The listener passed to `session.onEvent`; the session calls it while it is subscribed. */
    method HandleEvent(event: Event)
      requires subscribed
      modifies this
      ensures State() == OnInput(old(State()), FromSession(event))
    {
      hide AcpToolCallId, OnStarted, OnDelta, ProgressToSessionUpdate, ResultToSessionUpdate;
      var main, body := IsFromMainAgent(event), event.body;
      if body.TurnStarted? && main && (initialActiveTurnId.None? || body.turnId != initialActiveTurnId.value) {
        hasReceivedOwnTurnStarted := true;
      }
      if TurnIdOf(body).Some? && main {
        currentTurnId := TurnIdOf(body);
      }
      assert State() == Track(old(State()), event);
      match body
      case ErrorEvent(busy) =>
        if settled || !main || !busy || hasReceivedOwnTurnStarted { return; }
        Finish(Busy);
      case AssistantDelta(_, delta) =>
        if main { SessionUpdate(AgentMessageChunk(delta)); }
      case ThinkingDelta(_, delta) =>
        if main { SessionUpdate(AgentThoughtChunk(delta)); }
      case ToolCallStarted(_, _, _, _, _, _) =>
        if main { HandleToolCallStarted(body); }
      case ToolCallDelta(_, _, _, _) =>
        if main { HandleToolCallDelta(body); }
      case ToolProgress(turnId, toolCallId, _, _) =>
        if !main { return; }
        ProgressAtMostOne(AcpToolCallId(turnId, toolCallId), body);
        var note := ProgressToSessionUpdate(AcpToolCallId(turnId, toolCallId), body);
        if |note| > 0 { SessionUpdate(note[0]); }
      case ToolResult(turnId, toolCallId, _, _) =>
        if main { SessionUpdate(ResultToSessionUpdate(AcpToolCallId(turnId, toolCallId), body)); }
      case TurnEnded(_, reason) =>
        if settled || !main { return; }
        Finish(EndSettlement(reason));
      case _ =>
    }

    /** The handler of a rejected kick. */
    method HandleRejection()
      modifies this
      ensures State() == OnInput(old(State()), KickRejected)
    {
      if settled { return; }
      settled := true;
      subscribed := false;
      settlements := settlements + [PromptFailed];
    }
  }

  lemma ProgressAtMostOne(id: string, event: Body)
    requires event.ToolProgress?
    ensures |ProgressToSessionUpdate(id, event)| <= 1
  {
  }
}
