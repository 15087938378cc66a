/**
 * Register writes of one device: `post_write` validates and queues a command, the polling task takes it from the
 * bounded channel, attempts it on the PLC and replies, and the handler writes the audit row before it answers.
 */
module WritePipeline {
  import opened Wrappers

  /** `id` is the request that the command's reply channel belongs to. */
  datatype Command = Command(id: nat, register: nat, value: nat)

  const CAPACITY := 32

  // ---- The bounded channel ----

  datatype Channel = Channel(queue: seq<Command>, closed: bool)

  datatype SendOutcome = Accepted | Full | Refused

  function Sent(c: Channel, cmd: Command): (Channel, SendOutcome) {
    if c.closed then (c, Refused)
    else if |c.queue| >= CAPACITY then (c, Full)
    else (c.(queue := c.queue + [cmd]), Accepted)
  }

  function Taken(c: Channel): (Channel, Option<Command>) {
    if c.queue == [] then (c, None) else (c.(queue := c.queue[1..]), Some(c.queue[0]))
  }

  class WriteChannel {
    var queue: seq<Command>
    var closed: bool

    function View(): Channel
      reads this
    {
      Channel(queue, closed)
    }

    constructor ()
      ensures View() == Channel([], false)
    {
      queue, closed := [], false;
    }

    /** One try; a sender that finds the channel full waits and tries again. */
    method Send(cmd: Command) returns (outcome: SendOutcome)
      modifies this
      ensures (View(), outcome) == Sent(old(View()), cmd)
      ensures outcome == Accepted <==> !old(closed) && |old(queue)| < 32
      ensures outcome == Refused <==> old(closed)
      ensures closed == old(closed) && queue == if outcome == Accepted then old(queue) + [cmd] else old(queue)
      ensures |old(queue)| <= CAPACITY ==> |queue| <= CAPACITY
    {
      if closed {
        return Refused;
      }
      if |queue| >= CAPACITY {
        return Full;
      }
      queue := queue + [cmd];
      outcome := Accepted;
    }

    method Recv() returns (cmd: Option<Command>)
      modifies this
      ensures (View(), cmd) == Taken(old(View()))
      ensures cmd.None? <==> old(queue) == []
      ensures closed == old(closed) && old(queue) == (if cmd.Some? then [cmd.value] else []) + queue
    {
      if queue == [] {
        return None;
      }
      cmd := Some(queue[0]);
      queue := queue[1..];
    }

    /** The receiver is dropped, and with it everything that is queued. */
    method Close()
      modifies this
      ensures View() == Channel([], true)
    {
      queue, closed := [], true;
    }
  }

  // ---- Handlers and the polling task, step by step ----

  datatype Stage =
    | Sending                    // waiting for a place in the channel
    | Awaiting                   // waiting for the reply
    | Succeeded                  // the reply was a success
    | Recorded                   // past the audit trail
    | Answered(success: bool)    // the client has its response

  datatype Handler = Handler(cmd: Command, claims: bool, stage: Stage)

  /** What the polling task is doing with a command. */
  datatype Work = Nothing | Holding(cmd: Command) | Attempted(cmd: Command, ok: bool)

  /** `accepted`, `attempted` and `written` are history: commands queued, tried on the PLC, and carried out by it. */
  datatype System = System(channel: Channel, work: Work, connected: bool, handlers: seq<Handler>,
                           replies: map<nat, bool>, audit: seq<nat>,
                           accepted: seq<Command>, attempted: seq<Command>, written: set<nat>)

  const INIT := System(Channel([], false), Nothing, false, [], map[], [], [], [], {})

  datatype Step =
    | Post(register: nat, value: nat, claims: bool)
    | Send(id: nat)
    | Take
    | Attempt(ok: bool)
    | Reply(lost: bool)
    | Connection(up: bool)
    | Abort
    | Receive(id: nat)
    | Audit(id: nat)
    | Respond(id: nat)

  function MoveTo(s: System, id: nat, stage: Stage): System
    requires id < |s.handlers|
  {
    s.(handlers := s.handlers[id := s.handlers[id].(stage := stage)])
  }

  predicate At(s: System, id: nat, stage: Stage) {
    id < |s.handlers| && s.handlers[id].stage == stage
  }

  /** The reply can no longer come: the task is gone and took the command with it. */
  predicate Dropped(s: System, id: nat) {
    s.channel.closed && id !in s.replies
  }

  function Next(writable: set<nat>, s: System, step: Step): System {
    match step
    case Post(register, value, claims) =>
      var cmd := Command(|s.handlers|, register, value);
      s.(handlers := s.handlers + [Handler(cmd, claims, if register in writable then Sending else Answered(false))])
    case Send(id) =>
      if !At(s, id, Sending) then s else
        var (channel, outcome) := Sent(s.channel, s.handlers[id].cmd);
        (match outcome
         case Accepted => MoveTo(s, id, Awaiting).(channel := channel, accepted := s.accepted + [s.handlers[id].cmd])
         case Full => s
         case Refused => MoveTo(s, id, Answered(false)))
    case Take =>
      if s.channel.closed || !s.connected || s.work != Nothing then s else
        var (channel, cmd) := Taken(s.channel);
        if cmd.None? then s else s.(channel := channel, work := Holding(cmd.value))
    case Attempt(ok) =>
      if !s.work.Holding? then s else
        s.(work := Attempted(s.work.cmd, ok), attempted := s.attempted + [s.work.cmd],
           written := s.written + (if ok then {s.work.cmd.id} else {}))
    case Reply(lost) =>
      if !s.work.Attempted? then s else
        s.(work := Nothing, replies := s.replies[s.work.cmd.id := s.work.ok],
           connected := s.connected && (s.work.ok || !lost))
    case Connection(up) =>
      if s.channel.closed || s.work != Nothing then s else s.(connected := up)
    case Abort =>
      s.(channel := Channel([], true), work := Nothing, connected := false)
    case Receive(id) =>
      if !At(s, id, Awaiting) then s
      else if id in s.replies then MoveTo(s, id, if s.replies[id] then Succeeded else Answered(false))
      else if Dropped(s, id) then MoveTo(s, id, Answered(false))
      else s
    case Audit(id) =>
      if !At(s, id, Succeeded) then s
      else MoveTo(s, id, Recorded).(audit := if s.handlers[id].claims then s.audit + [id] else s.audit)
    case Respond(id) =>
      if At(s, id, Recorded) then MoveTo(s, id, Answered(true)) else s
  }

  function Run(writable: set<nat>, steps: seq<Step>): System {
    if steps == [] then INIT else Next(writable, Run(writable, steps[..|steps| - 1]), steps[|steps| - 1])
  }

  // ---- Order ----

  /** The command that was taken from the channel but not yet tried. */
  function InHand(w: Work): seq<Command> {
    if w.Holding? then [w.cmd] else []
  }

  ghost predicate Ordered(s: System) {
    && |s.channel.queue| <= CAPACITY
    && (!s.channel.closed ==> s.accepted == s.attempted + InHand(s.work) + s.channel.queue)
    && (s.channel.closed ==> s.attempted <= s.accepted && s.work == Nothing && s.channel.queue == [])
  }

  lemma QueueGrows(attempted: seq<Command>, inHand: seq<Command>, queue: seq<Command>, cmd: Command)
    ensures attempted + inHand + queue + [cmd] == attempted + inHand + (queue + [cmd])
  {}

  lemma SendKeepsOrder(writable: set<nat>, s: System, id: nat)
    requires Ordered(s)
    ensures Ordered(Next(writable, s, Send(id)))
  {
    if At(s, id, Sending) {
      QueueGrows(s.attempted, InHand(s.work), s.channel.queue, s.handlers[id].cmd);
    }
  }

  lemma OrderedStep(writable: set<nat>, s: System, step: Step)
    requires Ordered(s)
    ensures Ordered(Next(writable, s, step))
  {
    if step.Send? {
      SendKeepsOrder(writable, s, step.id);
    } else if step.Take? || step.Attempt? {
      assert s.channel.queue != [] ==> [s.channel.queue[0]] + s.channel.queue[1..] == s.channel.queue;
    }
  }

  // ---- Each request once, and only to writable registers ----

  ghost predicate Validated(writable: set<nat>, s: System) {
    forall id :: 0 <= id < |s.handlers| ==>
      s.handlers[id].cmd.id == id && (s.handlers[id].stage == Sending ==> s.handlers[id].cmd.register in writable)
  }

  lemma ValidatedStep(writable: set<nat>, s: System, step: Step)
    requires Validated(writable, s)
    ensures Validated(writable, Next(writable, s, step))
  {}

  ghost predicate Accountable(writable: set<nat>, s: System) {
    && (forall i :: 0 <= i < |s.accepted| ==>
          && s.accepted[i].id < |s.handlers| && s.handlers[s.accepted[i].id].cmd == s.accepted[i]
          && s.handlers[s.accepted[i].id].stage != Sending && s.accepted[i].register in writable)
    && (forall i, j :: 0 <= i < j < |s.accepted| ==> s.accepted[i].id != s.accepted[j].id)
  }

  /** What a step does to the commands and to the list of the accepted ones. */
  lemma CommandsMove(writable: set<nat>, s: System, step: Step)
    ensures var t := Next(writable, s, step);
            && |s.handlers| <= |t.handlers|
            && (forall id :: 0 <= id < |s.handlers| ==>
                  && t.handlers[id].cmd == s.handlers[id].cmd
                  && (t.handlers[id].stage == Sending ==> s.handlers[id].stage == Sending))
            && (t.accepted == s.accepted ||
                (step.Send? && At(s, step.id, Sending) && !At(t, step.id, Sending)
                 && t.accepted == s.accepted + [s.handlers[step.id].cmd]))
  {
    hide Taken, Dropped;
  }

  lemma AccountableStep(writable: set<nat>, s: System, step: Step)
    requires Validated(writable, s) && Accountable(writable, s)
    ensures Accountable(writable, Next(writable, s, step))
  {
    CommandsMove(writable, s, step);
    hide Next;
  }

  // ---- Replies, responses and the audit trail ----

  predicate KnowsSuccess(stage: Stage) {
    stage == Succeeded || stage == Recorded || stage == Answered(true)
  }

  ghost predicate Honest(s: System) {
    && (s.work.Attempted? && s.work.ok ==> s.work.cmd.id in s.written)
    && (forall id :: id in s.replies && s.replies[id] ==> id in s.written)
    && (forall id :: 0 <= id < |s.handlers| && KnowsSuccess(s.handlers[id].stage) ==> id in s.written)
  }

  lemma HonestStep(writable: set<nat>, s: System, step: Step)
    requires Honest(s)
    ensures Honest(Next(writable, s, step))
  {}

  ghost predicate WasAttempted(s: System, id: nat) {
    exists i :: 0 <= i < |s.attempted| && s.attempted[i].id == id
  }

  ghost predicate WrittenWereAttempted(s: System) {
    forall id :: id in s.written ==> WasAttempted(s, id)
  }

  lemma WrittenStep(writable: set<nat>, s: System, step: Step)
    requires WrittenWereAttempted(s)
    ensures WrittenWereAttempted(Next(writable, s, step))
  {
    var t := Next(writable, s, step);
    forall id | id in t.written
      ensures WasAttempted(t, id)
    {
      if id in s.written {
        assert WasAttempted(s, id);
        var i :| 0 <= i < |s.attempted| && s.attempted[i].id == id;
        assert t.attempted[i].id == id;
      } else {
        assert t.attempted[|s.attempted|].id == id;
      }
    }
  }

  predicate PastAudit(stage: Stage) {
    stage == Recorded || stage == Answered(true)
  }

  ghost predicate Audited(s: System) {
    && (forall i, j :: 0 <= i < j < |s.audit| ==> s.audit[i] != s.audit[j])
    && (forall id: nat :: id in s.audit <==>
          id < |s.handlers| && s.handlers[id].claims && PastAudit(s.handlers[id].stage))
  }

  /** What a step does to the handlers' stages and to the audit rows. */
  lemma HandlersMove(writable: set<nat>, s: System, step: Step)
    ensures var t := Next(writable, s, step);
            && |s.handlers| <= |t.handlers| <= |s.handlers| + 1
            && (forall id :: 0 <= id < |s.handlers| ==>
                  && t.handlers[id].claims == s.handlers[id].claims
                  && (PastAudit(t.handlers[id].stage) <==>
                        PastAudit(s.handlers[id].stage) || (step == Audit(id) && At(s, id, Succeeded))))
            && (|t.handlers| > |s.handlers| ==> !PastAudit(t.handlers[|s.handlers|].stage))
            && t.audit == s.audit + if step.Audit? && At(s, step.id, Succeeded) && s.handlers[step.id].claims
                                    then [step.id] else []
  {
    hide Sent, Taken, Dropped;
  }

  lemma AuditedStep(writable: set<nat>, s: System, step: Step)
    requires Audited(s)
    ensures Audited(Next(writable, s, step))
  {
    HandlersMove(writable, s, step);
    hide Next;
  }

  // ---- Nothing is reported as a failure without a reason ----

  /** The commands that wait in the channel or are being worked on. */
  function Working(w: Work): seq<Command> {
    match w
    case Nothing => []
    case Holding(cmd) => [cmd]
    case Attempted(cmd, _) => [cmd]
  }

  predicate Waits(s: System, cmd: Command) {
    At(s, cmd.id, Awaiting) && cmd.id !in s.replies
  }

  /** Every command under way belongs to a handler that awaits a reply it does not have yet, and to no other command. */
  ghost predicate UnderWay(s: System) {
    && (forall i :: 0 <= i < |s.channel.queue| ==> Waits(s, s.channel.queue[i]))
    && (forall cmd :: cmd in Working(s.work) ==> Waits(s, cmd))
    && (forall i, j :: 0 <= i < j < |s.channel.queue| ==> s.channel.queue[i].id != s.channel.queue[j].id)
    && (forall i, cmd :: 0 <= i < |s.channel.queue| && cmd in Working(s.work) ==> s.channel.queue[i].id != cmd.id)
    && (s.channel.closed ==> s.channel.queue == [] && s.work == Nothing)
  }

  /** Replies are to handlers past sending. */
  ghost predicate RepliesToSent(s: System) {
    forall id: nat :: id in s.replies ==> id < |s.handlers| && s.handlers[id].stage != Sending
  }

  /** Why a handler may report a failure. */
  predicate HasReason(writable: set<nat>, s: System, id: nat)
    requires id < |s.handlers|
  {
    || s.handlers[id].cmd.register !in writable
    || (id in s.replies && !s.replies[id])
    || (s.channel.closed && id !in s.replies)
  }

  /** Stages and replies agree: success was replied, and failure has a reason. */
  ghost predicate Explained(writable: set<nat>, s: System) {
    forall id: nat :: id < |s.handlers| ==> IsExplained(writable, s, id)
  }

  predicate IsExplained(writable: set<nat>, s: System, id: nat)
    requires id < |s.handlers|
  {
    && (KnowsSuccess(s.handlers[id].stage) ==> id in s.replies && s.replies[id])
    && (s.handlers[id].stage == Answered(false) ==> HasReason(writable, s, id))
  }

  /** No reply is taken back, and a new one goes to a handler that awaits it. */
  predicate RepliesKept(s: System, t: System, id: nat) {
    && (id in s.replies ==> id in t.replies && t.replies[id] == s.replies[id])
    && (id in t.replies && id !in s.replies ==> At(s, id, Awaiting))
    && (s.channel.closed ==> t.channel.closed && t.replies == s.replies)
  }

  lemma StaysExplained(writable: set<nat>, s: System, t: System, id: nat)
    requires id < |s.handlers| && id < |t.handlers| && t.handlers[id].cmd == s.handlers[id].cmd
    requires IsExplained(writable, s, id) && StageMoves(writable, s, t, id) && RepliesKept(s, t, id)
    requires s.handlers[id].stage == Sending ==> id !in s.replies
    ensures IsExplained(writable, t, id)
  {}

  lemma UnderWayStep(writable: set<nat>, s: System, step: Step)
    requires UnderWay(s) && RepliesToSent(s) && Validated(writable, s)
    ensures UnderWay(Next(writable, s, step))
  {
    match step
    case Send(id) => SendUnderWay(writable, s, id);
    case Take => TakeUnderWay(writable, s);
    case Reply(lost) => ReplyUnderWay(writable, s, lost);
    case Receive(id) => ReceiveUnderWay(writable, s, id);
    case Post(_, _, _) => PostUnderWay(writable, s, step);
    case _ => OtherUnderWay(writable, s, step);
  }

  lemma OtherUnderWay(writable: set<nat>, s: System, step: Step)
    requires UnderWay(s) && (step.Attempt? || step.Connection? || step.Abort? || step.Audit? || step.Respond?)
    ensures UnderWay(Next(writable, s, step))
  {
    var t := Next(writable, s, step);
    assert forall cmd: Command :: Waits(s, cmd) ==> Waits(t, cmd);
    if step.Attempt? && s.work.Holding? {
      assert s.work.cmd in Working(s.work);
      assert forall cmd: Command :: cmd in Working(t.work) ==> cmd in Working(s.work);
    }
  }

  lemma PostUnderWay(writable: set<nat>, s: System, step: Step)
    requires UnderWay(s) && step.Post?
    ensures UnderWay(Next(writable, s, step))
  {
    hide CAPACITY;
  }

  lemma SendUnderWay(writable: set<nat>, s: System, id: nat)
    requires UnderWay(s) && RepliesToSent(s) && Validated(writable, s)
    ensures UnderWay(Next(writable, s, Send(id)))
  {
    var t := Next(writable, s, Send(id));
    assert forall cmd: Command :: Waits(s, cmd) && At(s, id, Sending) ==> cmd.id != id;
    assert forall cmd: Command :: Waits(s, cmd) ==> Waits(t, cmd);
  }

  lemma TakeUnderWay(writable: set<nat>, s: System)
    requires UnderWay(s)
    ensures UnderWay(Next(writable, s, Take))
  {
    var t := Next(writable, s, Take);
    assert forall cmd: Command :: Waits(s, cmd) ==> Waits(t, cmd);
  }

  lemma ReplyUnderWay(writable: set<nat>, s: System, lost: bool)
    requires UnderWay(s)
    ensures UnderWay(Next(writable, s, Reply(lost)))
  {
    var t := Next(writable, s, Reply(lost));
    if s.work.Attempted? {
      assert s.work.cmd in Working(s.work);
      assert forall cmd: Command :: Waits(s, cmd) && cmd.id != s.work.cmd.id ==> Waits(t, cmd);
    }
  }

  lemma ReceiveUnderWay(writable: set<nat>, s: System, id: nat)
    requires UnderWay(s)
    ensures UnderWay(Next(writable, s, Receive(id)))
  {
    var t := Next(writable, s, Receive(id));
    assert !s.channel.closed ==> forall cmd: Command :: Waits(s, cmd) ==> Waits(t, cmd);
  }

  lemma RepliesToSentStep(writable: set<nat>, s: System, step: Step)
    requires RepliesToSent(s) && UnderWay(s)
    ensures RepliesToSent(Next(writable, s, step))
  {
    if step.Reply? && s.work.Attempted? {
      assert s.work.cmd in Working(s.work);
    }
    hide Sent, Taken, Dropped;
  }

  /** A step gives a reply to nobody who is past awaiting one, and takes none back. */
  lemma RepliesMove(writable: set<nat>, s: System, step: Step)
    requires UnderWay(s)
    ensures var t := Next(writable, s, step);
            forall id: nat :: RepliesKept(s, t, id)
  {
    if step.Reply? && s.work.Attempted? {
      assert s.work.cmd in Working(s.work) && Waits(s, s.work.cmd);
    }
    hide Dropped;
  }

  lemma ExplainedStep(writable: set<nat>, s: System, step: Step)
    requires Explained(writable, s) && UnderWay(s) && RepliesToSent(s)
    ensures Explained(writable, Next(writable, s, step))
  {
    var t := Next(writable, s, step);
    RepliesMove(writable, s, step);
    StagesMove(writable, s, step);
    CommandsMove(writable, s, step);
    hide Next, UnderWay, IsExplained, StageMoves;
    forall id: nat | id < |s.handlers|
      ensures IsExplained(writable, t, id)
    {
      StaysExplained(writable, s, t, id);
    }
    if |t.handlers| > |s.handlers| {
      NewIsExplained(writable, t, |s.handlers|);
    }
  }

  lemma NewIsExplained(writable: set<nat>, s: System, id: nat)
    requires id < |s.handlers|
    requires s.handlers[id].stage == if s.handlers[id].cmd.register in writable then Sending else Answered(false)
    ensures IsExplained(writable, s, id)
  {}

  /** How a handler's stage may change, and on what grounds. */
  predicate StageMoves(writable: set<nat>, s: System, t: System, id: nat)
    requires id < |s.handlers| && id < |t.handlers|
  {
    var (a, b) := (s.handlers[id].stage, t.handlers[id].stage);
    || b == a
    || (a == Sending && (b == Awaiting || (b == Answered(false) && s.channel.closed)))
    || (a == Awaiting && b == Succeeded && id in s.replies && s.replies[id])
    || (a == Awaiting && b == Answered(false) && id in s.replies && !s.replies[id])
    || (a == Awaiting && b == Answered(false) && s.channel.closed && id !in s.replies)
    || (a == Succeeded && b == Recorded) || (a == Recorded && b == Answered(true))
  }

  lemma StagesMove(writable: set<nat>, s: System, step: Step)
    ensures var t := Next(writable, s, step);
            && |s.handlers| <= |t.handlers| <= |s.handlers| + 1
            && (forall id: nat :: id < |s.handlers| ==> StageMoves(writable, s, t, id))
            && (|t.handlers| > |s.handlers| ==>
                  var h := t.handlers[|s.handlers|];
                  h.stage == if h.cmd.register in writable then Sending else Answered(false))
  {
    hide Taken;
  }

  ghost predicate Answerable(writable: set<nat>, s: System) {
    UnderWay(s) && RepliesToSent(s) && Explained(writable, s)
  }

  lemma {:induction false} RunAnswers(writable: set<nat>, steps: seq<Step>)
    ensures Answerable(writable, Run(writable, steps))
  {
    if steps == [] {
      assert Run(writable, steps) == INIT;
    } else {
      var s, step := Run(writable, steps[..|steps| - 1]), steps[|steps| - 1];
      RunAnswers(writable, steps[..|steps| - 1]);
      RunKeepsAll(writable, steps[..|steps| - 1]);
      hide Next, UnderWay, RepliesToSent, Explained, Validated;
      UnderWayStep(writable, s, step);
      RepliesToSentStep(writable, s, step);
      ExplainedStep(writable, s, step);
    }
  }

  // ---- Theorems over every run ----

  lemma {:induction false} RunKeepsAll(writable: set<nat>, steps: seq<Step>)
    ensures var s := Run(writable, steps);
            && Ordered(s) && Validated(writable, s) && Accountable(writable, s)
            && Honest(s) && WrittenWereAttempted(s) && Audited(s)
  {
    if steps == [] {
      assert Run(writable, steps) == INIT;
    } else {
      var s, step := Run(writable, steps[..|steps| - 1]), steps[|steps| - 1];
      RunKeepsAll(writable, steps[..|steps| - 1]);
      hide Ordered, Validated, Accountable, Honest, WrittenWereAttempted, Audited, Next;
      OrderedStep(writable, s, step);
      ValidatedStep(writable, s, step);
      WrittenStep(writable, s, step);
      AccountableStep(writable, s, step);
      HonestStep(writable, s, step);
      AuditedStep(writable, s, step);
    }
  }

  /** The PLC sees the accepted commands in order, each at most once, and only writes to writable registers. */
  lemma {:induction false} WritesAreAPrefix(writable: set<nat>, steps: seq<Step>)
    ensures var s := Run(writable, steps);
            && s.attempted <= s.accepted && |s.channel.queue| <= 32
            && (forall i :: 0 <= i < |s.attempted| ==> s.attempted[i].register in writable)
            && (forall i, j :: 0 <= i < j < |s.attempted| ==> s.attempted[i].id != s.attempted[j].id)
  {
    RunKeepsAll(writable, steps);
    var s := Run(writable, steps);
    assert s.attempted <= s.accepted;
    assert forall i :: 0 <= i < |s.attempted| ==> s.attempted[i] == s.accepted[i];
  }

  /** A client is told of a success only if the PLC carried out exactly its write. */
  lemma SuccessIsReal(writable: set<nat>, steps: seq<Step>, id: nat) returns (i: nat)
    requires At(Run(writable, steps), id, Answered(true))
    ensures var s := Run(writable, steps);
            id in s.written && i < |s.attempted| && s.attempted[i] == s.handlers[id].cmd
  {
    RunKeepsAll(writable, steps);
    var s := Run(writable, steps);
    assert WasAttempted(s, id);
    i :| 0 <= i < |s.attempted| && s.attempted[i].id == id;
    assert s.attempted[i] == s.accepted[i];
  }

  /**
   * When no handler is between audit and response, the audit rows are exactly the authenticated successes, once each.
   */
  lemma AuditMatchesSuccesses(writable: set<nat>, steps: seq<Step>)
    requires forall id :: 0 <= id < |Run(writable, steps).handlers| ==>
               Run(writable, steps).handlers[id].stage != Recorded
    ensures var s := Run(writable, steps);
            && (forall i, j :: 0 <= i < j < |s.audit| ==> s.audit[i] != s.audit[j])
            && (forall id: nat :: id in s.audit <==> At(s, id, Answered(true)) && s.handlers[id].claims)
  {
    RunKeepsAll(writable, steps);
  }

  /**
   * In every run: a client whose write was replied a success is never told of a failure, and a failure that a client is
   * told has a reason: the register is not writable, the reply was a failure, or the task is gone and left no reply.
   */
  lemma {:induction false} FailureHasReason(writable: set<nat>, steps: seq<Step>, id: nat)
    requires At(Run(writable, steps), id, Answered(false))
    ensures var s := Run(writable, steps);
            && !(id in s.replies && s.replies[id])
            && (s.handlers[id].cmd.register !in writable || (id in s.replies && !s.replies[id])
                || (s.channel.closed && id !in s.replies))
  {
    RunAnswers(writable, steps);
    UnwritableNeverReplied(writable, steps, id);
    hide Run;
    assert IsExplained(writable, Run(writable, steps), id);
  }

  /** Replies are about accepted commands, and those have writable registers. */
  lemma {:induction false} UnwritableNeverReplied(writable: set<nat>, steps: seq<Step>, id: nat)
    ensures var s := Run(writable, steps);
            && (forall cmd :: cmd in Working(s.work) || cmd in s.channel.queue ==>
                  cmd.register in writable && cmd.id < |s.handlers| && s.handlers[cmd.id].cmd == cmd)
            && (id in s.replies ==> id < |s.handlers| && s.handlers[id].cmd.register in writable)
  {
    if steps == [] {
      assert Run(writable, steps) == INIT;
    } else {
      var s, step := Run(writable, steps[..|steps| - 1]), steps[|steps| - 1];
      UnwritableNeverReplied(writable, steps[..|steps| - 1], id);
      RunKeepsAll(writable, steps[..|steps| - 1]);
      CommandsMove(writable, s, step);
      WorkMoves(writable, s, step);
      hide Run, Next, Accountable, Honest, Audited, Ordered, WrittenWereAttempted;
    }
  }

  /** Where commands under way and replies come from. */
  lemma WorkMoves(writable: set<nat>, s: System, step: Step)
    ensures var t := Next(writable, s, step);
            && (forall cmd :: cmd in Working(t.work) ==> cmd in Working(s.work) || cmd in s.channel.queue)
            && (forall cmd :: cmd in t.channel.queue ==>
                  cmd in s.channel.queue
                  || (step.Send? && At(s, step.id, Sending) && cmd == s.handlers[step.id].cmd))
            && (forall id: nat :: id in t.replies ==>
                  id in s.replies || (s.work.Attempted? && id == s.work.cmd.id))
  {
    hide Dropped;
  }

  // ---- Connections ----

  /** A failed write that loses the connection disconnects; nothing else about a reply does. */
  lemma LostWriteDisconnects(writable: set<nat>, s: System, lost: bool)
    requires s.work.Attempted?
    ensures Next(writable, s, Reply(lost)).connected <==> s.connected && !(lost && !s.work.ok)
  {}

  /** While the device is disconnected no command is tried: they wait, however many steps the others take. */
  lemma {:induction false} NothingAttemptedWhileDown(writable: set<nat>, s: System, steps: seq<Step>)
    requires !s.connected && s.work == Nothing
    requires forall i :: 0 <= i < |steps| ==> steps[i] != Connection(true)
    ensures var t := Perform(writable, s, steps);
            !t.connected && t.work == Nothing && t.attempted == s.attempted && t.written == s.written
    decreases |steps|
  {
    if steps != [] {
      StaysDown(writable, s, steps[0]);
      hide Next;
      NothingAttemptedWhileDown(writable, Next(writable, s, steps[0]), steps[1..]);
    }
  }

  lemma StaysDown(writable: set<nat>, s: System, step: Step)
    requires !s.connected && s.work == Nothing && step != Connection(true)
    ensures var t := Next(writable, s, step);
            !t.connected && t.work == Nothing && t.attempted == s.attempted && t.written == s.written
  {
    hide Sent, Dropped;
  }

  /** A connection that comes up is used: the oldest waiting command is the next to be tried. */
  lemma OldestIsNext(writable: set<nat>, s: System, ok: bool)
    requires !s.channel.closed && s.work == Nothing && s.channel.queue != []
    ensures var t := Next(writable, Next(writable, Next(writable, s, Connection(true)), Take), Attempt(ok));
            && t.attempted == s.attempted + [s.channel.queue[0]] && t.channel.queue == s.channel.queue[1..]
            && t.written == s.written + if ok then {s.channel.queue[0].id} else {}
  {}

  // ---- When the polling task is gone ----

  /** A device that is removed takes its queue with it. */
  lemma AbortDropsAll(writable: set<nat>, s: System)
    ensures var t := Next(writable, s, Abort);
            && t.channel == Channel([], true) && t.work == Nothing && !t.connected
            && t.handlers == s.handlers && t.attempted == s.attempted && t.replies == s.replies
  {}

  /** Then no command is tried or replied any more ... */
  lemma {:induction false} NothingAfterAbort(writable: set<nat>, s: System, steps: seq<Step>)
    requires s.channel == Channel([], true) && s.work == Nothing
    ensures var t := Perform(writable, s, steps);
            && t.channel == s.channel && t.work == Nothing
            && t.attempted == s.attempted && t.written == s.written && t.replies == s.replies
    decreases |steps|
  {
    if steps != [] {
      StaysGone(writable, s, steps[0]);
      hide Next;
      NothingAfterAbort(writable, Next(writable, s, steps[0]), steps[1..]);
    }
  }

  lemma StaysGone(writable: set<nat>, s: System, step: Step)
    requires s.channel == Channel([], true) && s.work == Nothing
    ensures var t := Next(writable, s, step);
            && t.channel == s.channel && t.work == Nothing
            && t.attempted == s.attempted && t.written == s.written && t.replies == s.replies
  {}

  /** ... and everybody who still waits is told of a failure, unless the reply had come before. */
  lemma GoneAnswersFailure(writable: set<nat>, s: System, id: nat)
    requires s.channel.closed
    ensures At(s, id, Sending) ==> At(Next(writable, s, Send(id)), id, Answered(false))
    ensures At(s, id, Awaiting) && id !in s.replies ==> At(Next(writable, s, Receive(id)), id, Answered(false))
  {}

  // ---- What becomes of a reply, and of an undisturbed write ----

  /** A handler with a reply passes it on, and leaves exactly one audit row for an authenticated success. */
  lemma ReplyIsPassedOn(writable: set<nat>, steps: seq<Step>, id: nat)
    requires At(Run(writable, steps), id, Awaiting) && id in Run(writable, steps).replies
    ensures var s := Run(writable, steps);
            var t := Next(writable, Next(writable, Next(writable, s, Receive(id)), Audit(id)), Respond(id));
            && At(t, id, Answered(s.replies[id]))
            && id !in s.audit
            && t.audit == s.audit + if s.replies[id] && s.handlers[id].claims then [id] else []
  {
    RunKeepsAll(writable, steps);
    var s := Run(writable, steps);
    hide Run, Ordered, Validated, Accountable, Honest, WrittenWereAttempted;
    var t1 := Next(writable, s, Receive(id));
    var t2 := Next(writable, t1, Audit(id));
    if s.replies[id] {
      assert At(t1, id, Succeeded) && At(t2, id, Recorded);
    } else {
      assert At(t1, id, Answered(false)) && t2 == t1;
    }
  }

  /** The eight steps of a write that nobody disturbs. */
  function Undisturbed(id: nat, register: nat, value: nat, claims: bool, ok: bool, lost: bool): seq<Step> {
    [Post(register, value, claims), Send(id), Take, Attempt(ok), Reply(lost), Receive(id), Audit(id), Respond(id)]
  }

  function Perform(writable: set<nat>, s: System, steps: seq<Step>): System
    decreases |steps|
  {
    if steps == [] then s else Perform(writable, Next(writable, s, steps[0]), steps[1..])
  }

  /** From the request to the queue, and from the queue to the PLC. */
  lemma PostAndAttempt(writable: set<nat>, s: System, register: nat, value: nat, claims: bool, ok: bool)
      returns (t: System)
    requires register in writable && s.connected && s.channel == Channel([], false) && s.work == Nothing
    ensures var id := |s.handlers|;
            t == Perform(writable, s, [Post(register, value, claims), Send(id), Take, Attempt(ok)])
    ensures var (id, cmd) := (|s.handlers|, Command(|s.handlers|, register, value));
            && t.work == Attempted(cmd, ok) && t.handlers == s.handlers + [Handler(cmd, claims, Awaiting)]
            && t.attempted == s.attempted + [cmd] && t.written == s.written + (if ok then {id} else {})
            && t.replies == s.replies && t.audit == s.audit
  {
    var (id, cmd) := (|s.handlers|, Command(|s.handlers|, register, value));
    var t1 := Next(writable, s, Post(register, value, claims));
    assert At(t1, id, Sending);
    var t2 := Next(writable, t1, Send(id));
    assert [] + [cmd] == [cmd] && t2.channel.queue == [cmd];
    assert t2.handlers == s.handlers + [Handler(cmd, claims, Awaiting)];
    var t3 := Next(writable, t2, Take);
    assert t3.work == Holding(cmd);
    t := Next(writable, t3, Attempt(ok));
    PerformFour(writable, s, Post(register, value, claims), Send(id), Take, Attempt(ok));
  }

  lemma ReplyAndRespond(writable: set<nat>, s: System, ok: bool, lost: bool) returns (t: System)
    requires s.work.Attempted? && s.work.ok == ok && At(s, s.work.cmd.id, Awaiting)
    ensures var id := s.work.cmd.id;
            t == Perform(writable, s, [Reply(lost), Receive(id), Audit(id), Respond(id)])
    ensures var id := s.work.cmd.id;
            && At(t, id, Answered(ok))
            && t.audit == s.audit + (if ok && s.handlers[id].claims then [id] else [])
            && t.attempted == s.attempted && t.written == s.written
  {
    var id := s.work.cmd.id;
    var t1 := Next(writable, s, Reply(lost));
    var t2 := Next(writable, t1, Receive(id));
    assert t1.replies[id] == ok && At(t2, id, if ok then Succeeded else Answered(false));
    var t3 := Next(writable, t2, Audit(id));
    assert At(t3, id, if ok then Recorded else Answered(false));
    t := Next(writable, t3, Respond(id));
    PerformFour(writable, s, Reply(lost), Receive(id), Audit(id), Respond(id));
  }

  /**
   * An undisturbed write to a writable register of a connected device: the PLC is tried once, with that register and
   * value, and the client is told what it said; an authenticated success leaves its audit row.
   */
  lemma {:induction false} UndisturbedWrite(writable: set<nat>, s: System, register: nat, value: nat, claims: bool,
                                            ok: bool, lost: bool)
    requires register in writable && s.connected && s.channel == Channel([], false) && s.work == Nothing
    ensures var (id, cmd) := (|s.handlers|, Command(|s.handlers|, register, value));
            var t := Perform(writable, s, Undisturbed(id, register, value, claims, ok, lost));
            && At(t, id, Answered(ok)) && t.attempted == s.attempted + [cmd]
            && t.written == s.written + (if ok then {id} else {})
            && t.audit == s.audit + (if ok && claims then [id] else [])
  {
    var id := |s.handlers|;
    var t := PostAndAttempt(writable, s, register, value, claims, ok);
    var u := ReplyAndRespond(writable, t, ok, lost);
    hide Next, Perform, At, Undisturbed;
    InTwoHalves(id, register, value, claims, ok, lost);
    PerformBoth(writable, s, [Post(register, value, claims), Send(id), Take, Attempt(ok)],
                [Reply(lost), Receive(id), Audit(id), Respond(id)]);
  }

  lemma InTwoHalves(id: nat, register: nat, value: nat, claims: bool, ok: bool, lost: bool)
    ensures Undisturbed(id, register, value, claims, ok, lost)
         == [Post(register, value, claims), Send(id), Take, Attempt(ok)]
            + [Reply(lost), Receive(id), Audit(id), Respond(id)]
  {}

  lemma {:induction false} PerformBoth(writable: set<nat>, s: System, a: seq<Step>, b: seq<Step>)
    ensures Perform(writable, s, a + b) == Perform(writable, Perform(writable, s, a), b)
    decreases |a|
  {
    hide Next;
    if a == [] {
      assert a + b == b;
    } else {
      assert (a + b)[1..] == a[1..] + b;
      PerformBoth(writable, Next(writable, s, a[0]), a[1..], b);
    }
  }

  lemma PerformOne(writable: set<nat>, s: System, step: Step)
    ensures Perform(writable, s, [step]) == Next(writable, s, step)
  {
    assert |[step][1..]| == 0;
    hide Next;
  }

  lemma PerformFour(writable: set<nat>, s: System, a: Step, b: Step, c: Step, d: Step)
    ensures Perform(writable, s, [a, b, c, d])
         == Next(writable, Next(writable, Next(writable, Next(writable, s, a), b), c), d)
  {
    hide Next, Perform;
    PerformOne(writable, s, a);
    PerformOne(writable, Next(writable, s, a), b);
    PerformOne(writable, Next(writable, Next(writable, s, a), b), c);
    PerformOne(writable, Next(writable, Next(writable, Next(writable, s, a), b), c), d);
    PerformBoth(writable, s, [a], [b]);
    PerformBoth(writable, s, [a] + [b], [c]);
    PerformBoth(writable, s, [a] + [b] + [c], [d]);
    assert [a, b, c, d] == [a] + [b] + [c] + [d];
  }
}
