/** Two bridged peers: calls in both directions share one framed connection, and
    caller threads, handler threads, readers, timeouts and disconnects interleave
    freely. Each step below is one locked or atomic action of one thread. */
module Peer {
  import opened Common

  datatype Side = Left | Right

  function Other(side: Side): Side {
    if side.Left? then Right else Left
  }

  datatype Role = Controller | Executor

  datatype Response = Remote(body: string) | WriteFailed | TimedOut | Disconnected

  /** `Stray` is a handshake frame or a line that does not decode. */
  datatype Frame = RequestFrame(id: nat, role: Role, request: string) | ResponseFrame(id: nat, body: string) | Stray

  /** Registered: in `pending`, frame not written yet. Expiring: the wait has timed out,
      `pending` not yet cleaned up. */
  datatype Stage = Registered | Waiting | Expiring | Returned

  /** One call of `call_with_timeout`; `mailbox` is its one-shot channel. */
  datatype Call = Call(side: Side, role: Role, request: string, stage: Stage,
                       mailbox: Option<Response>, result: Option<Response>)

  /** One handler thread on the side that received the request. */
  datatype Handler = Handler(side: Side, role: Role, request: string, answer: Option<string>, replied: bool)

  /** Per side: the pending map, senders taken at disconnect and not yet used, and
      whether its reader still runs. */
  datatype End = End(pending: set<nat>, draining: set<nat>, reading: bool)

  /** Calls are named by their fresh request ids; `sent[s]` are frames written by `s`
      and not read yet. */
  datatype Link = Link(calls: seq<Call>, left: End, right: End, sentLeft: seq<Frame>, sentRight: seq<Frame>,
                       handlers: map<nat, Handler>)

  const OPEN := Link([], End({}, {}, true), End({}, {}, true), [], [], map[])

  function EndOf(l: Link, side: Side): End {
    if side.Left? then l.left else l.right
  }

  function WithEnd(l: Link, side: Side, end: End): Link {
    if side.Left? then l.(left := end) else l.(right := end)
  }

  function Sent(l: Link, side: Side): seq<Frame> {
    if side.Left? then l.sentLeft else l.sentRight
  }

  function WithSent(l: Link, side: Side, frames: seq<Frame>): Link {
    if side.Left? then l.(sentLeft := frames) else l.(sentRight := frames)
  }

  function WithCall(l: Link, id: nat, call: Call): Link
    requires id < |l.calls|
  {
    l.(calls := l.calls[id := call])
  }

  function Forgotten(l: Link, side: Side, id: nat): Link {
    WithEnd(l, side, EndOf(l, side).(pending := EndOf(l, side).pending - {id}))
  }

  datatype Step =
    | Place(side: Side, role: Role, request: string)
    | Send(id: nat, ok: bool)
    | Receive(id: nat)
    | TimeOut(id: nat)
    | Forget(id: nat)
    | Read(side: Side)
    | Answer(id: nat, body: string)
    | Reply(id: nat, ok: bool)
    | Break(side: Side)
    | Drain(side: Side, id: nat)
    | Inject(side: Side)

  /** The reader stops: the whole pending map is taken at once. */
  function ReaderStopped(l: Link, side: Side): Link {
    var end := EndOf(l, side);
    WithEnd(l, side, End({}, end.draining + end.pending, false))
  }

  /** One frame handled by `read_frames_inner`. */
  function FrameRead(l: Link, side: Side, frame: Frame): Link {
    match frame
    case Stray => ReaderStopped(l, side)
    case ResponseFrame(id, body) =>
      if id in EndOf(l, side).pending && id < |l.calls| then
        WithCall(Forgotten(l, side, id), id, l.calls[id].(mailbox := Some(Remote(body))))
      else l
    case RequestFrame(id, role, request) =>
      l.(handlers := l.handlers[id := Handler(side, role, request, None, false)])
  }

  /** A step that cannot be taken now changes nothing. */
  function Next(l: Link, s: Step): Link {
    match s
    case Place(side, role, request) =>
      var end := EndOf(l, side);
      WithEnd(l.(calls := l.calls + [Call(side, role, request, Registered, None, None)]), side,
              end.(pending := end.pending + {|l.calls|}))
    case Send(id, ok) =>
      if id < |l.calls| && l.calls[id].stage.Registered? then
        var call := l.calls[id];
        if ok then
          WithSent(WithCall(l, id, call.(stage := Waiting)), call.side,
                   Sent(l, call.side) + [RequestFrame(id, call.role, call.request)])
        else WithCall(Forgotten(l, call.side, id), id, call.(stage := Returned, result := Some(WriteFailed)))
      else l
    case Receive(id) =>
      if id < |l.calls| && l.calls[id].stage.Waiting? && l.calls[id].mailbox.Some? then
        WithCall(l, id, l.calls[id].(stage := Returned, result := l.calls[id].mailbox))
      else l
    case TimeOut(id) =>
      if id < |l.calls| && l.calls[id].stage.Waiting? && l.calls[id].mailbox.None? then
        WithCall(l, id, l.calls[id].(stage := Expiring))
      else l
    case Forget(id) =>
      if id < |l.calls| && l.calls[id].stage.Expiring? then
        WithCall(Forgotten(l, l.calls[id].side, id), id, l.calls[id].(stage := Returned, result := Some(TimedOut)))
      else l
    case Read(side) =>
      var frames := Sent(l, Other(side));
      if EndOf(l, side).reading && frames != [] then
        FrameRead(WithSent(l, Other(side), frames[1..]), side, frames[0])
      else l
    case Answer(id, body) =>
      if id in l.handlers && l.handlers[id].answer.None? then
        l.(handlers := l.handlers[id := l.handlers[id].(answer := Some(body))])
      else l
    case Reply(id, ok) =>
      if id in l.handlers && l.handlers[id].answer.Some? && !l.handlers[id].replied then
        var h := l.handlers[id];
        var l' := l.(handlers := l.handlers[id := h.(replied := true)]);
        if ok then WithSent(l', h.side, Sent(l, h.side) + [ResponseFrame(id, h.answer.value)]) else l'
      else l
    case Break(side) => if EndOf(l, side).reading then ReaderStopped(l, side) else l
    case Drain(side, id) =>
      var end := EndOf(l, side);
      if id in end.draining && id < |l.calls| then
        WithCall(WithEnd(l, side, end.(draining := end.draining - {id})), id,
                 l.calls[id].(mailbox := Some(Disconnected)))
      else l
    case Inject(side) => WithSent(l, side, Sent(l, side) + [Stray])
  }

  function Run(l: Link, steps: seq<Step>): Link
    decreases |steps|
  {
    if steps == [] then l else Run(Next(l, steps[0]), steps[1..])
  }

  // ------------------------------------------------------------------- invariant

  /** A handler that serves exactly this call, on the opposite side. */
  predicate Serves(h: Handler, c: Call) {
    h.side == Other(c.side) && h.role == c.role && h.request == c.request
  }

  /** `r` is a local failure or what the call's own handler answered. */
  predicate Legitimate(l: Link, id: nat, r: Response) {
    r.Remote? ==> id in l.handlers && l.handlers[id].answer == Some(r.body)
  }

  ghost predicate CallsSound(l: Link) {
    forall id :: 0 <= id < |l.calls| ==>
      && (l.calls[id].mailbox.Some? ==> Legitimate(l, id, l.calls[id].mailbox.value))
      && (l.calls[id].result.Some? ==> Legitimate(l, id, l.calls[id].result.value))
      && (l.calls[id].result.Some? <==> l.calls[id].stage.Returned?)
      && (l.calls[id].stage.Registered? ==> id !in l.handlers)
  }

  ghost predicate HandlersSound(l: Link) {
    forall id :: id in l.handlers ==> id < |l.calls| && Serves(l.handlers[id], l.calls[id])
  }

  predicate FrameSound(l: Link, side: Side, frame: Frame) {
    match frame
    case Stray => true
    case RequestFrame(id, role, request) =>
      && id < |l.calls| && l.calls[id].side == side && l.calls[id].role == role && l.calls[id].request == request
      && !l.calls[id].stage.Registered? && id !in l.handlers
    case ResponseFrame(id, body) =>
      id in l.handlers && l.handlers[id].side == side && l.handlers[id].answer == Some(body)
  }

  /** Every frame on the wire is sound and no request is on it twice. */
  ghost predicate WireSound(l: Link, side: Side) {
    && (forall i :: 0 <= i < |Sent(l, side)| ==> FrameSound(l, side, Sent(l, side)[i]))
    && DistinctRequests(Sent(l, side))
  }

  ghost predicate DistinctRequests(frames: seq<Frame>) {
    forall i, j :: 0 <= i < j < |frames| && frames[i].RequestFrame? && frames[j].RequestFrame? ==>
             frames[i].id != frames[j].id
  }

  /** A sender still held by the bridge belongs to this side and was not used yet. */
  ghost predicate EndSound(l: Link, side: Side) {
    && (forall id :: id in EndOf(l, side).pending || id in EndOf(l, side).draining ==>
          id < |l.calls| && l.calls[id].side == side && l.calls[id].mailbox.None?)
    && EndOf(l, side).pending !! EndOf(l, side).draining
  }

  ghost predicate Sound(l: Link) {
    && CallsSound(l) && HandlersSound(l)
    && WireSound(l, Left) && WireSound(l, Right) && EndSound(l, Left) && EndSound(l, Right)
  }

  // ------------------------------------------------------------ steps keep it

  lemma PlaceKeepsSound(l: Link, side: Side, role: Role, request: string)
    requires Sound(l)
    ensures Sound(Next(l, Place(side, role, request)))
  {
    var l' := Next(l, Place(side, role, request));
    forall s: Side, i | 0 <= i < |Sent(l', s)|
      ensures FrameSound(l', s, Sent(l', s)[i])
    {
      assert FrameSound(l, s, Sent(l, s)[i]);
    }
  }

  /** A change to one call that keeps what the frames and the bridge rely on. */
  lemma CallEditKeepsSound(l: Link, id: nat, call: Call)
    requires Sound(l) && id < |l.calls|
    requires call.side == l.calls[id].side && call.role == l.calls[id].role && call.request == l.calls[id].request
    requires call.stage.Registered? ==> l.calls[id].stage.Registered?
    requires call.mailbox.Some? ==> Legitimate(l, id, call.mailbox.value)
    requires call.result.Some? ==> Legitimate(l, id, call.result.value)
    requires call.result.Some? <==> call.stage.Returned?
    requires call.mailbox.None? || call.mailbox == l.calls[id].mailbox
             || (id !in l.left.pending + l.left.draining + l.right.pending + l.right.draining)
    ensures Sound(WithCall(l, id, call))
  {
    var l' := WithCall(l, id, call);
    forall s: Side, i | 0 <= i < |Sent(l', s)|
      ensures FrameSound(l', s, Sent(l', s)[i])
    {
      assert FrameSound(l, s, Sent(l, s)[i]);
    }
  }

  /** Dropping a sender, or moving it to the drain, keeps the bridge sound. */
  lemma EndShrinks(l: Link, side: Side, end: End)
    requires Sound(l) && end.pending !! end.draining
    requires end.pending + end.draining <= EndOf(l, side).pending + EndOf(l, side).draining
    ensures Sound(WithEnd(l, side, end))
  {
    var l' := WithEnd(l, side, end);
    forall s: Side, i | 0 <= i < |Sent(l', s)|
      ensures FrameSound(l', s, Sent(l', s)[i])
    {
      assert FrameSound(l, s, Sent(l, s)[i]);
    }
    forall id | id in end.pending || id in end.draining
      ensures id < |l.calls| && l.calls[id].side == side && l.calls[id].mailbox.None?
    {
      assert id in EndOf(l, side).pending || id in EndOf(l, side).draining;
    }
  }

  lemma SentKeepsSound(l: Link, side: Side, frame: Frame)
    requires Sound(l) && FrameSound(l, side, frame)
    requires frame.RequestFrame? ==>
               forall i :: 0 <= i < |Sent(l, side)| && Sent(l, side)[i].RequestFrame? ==>
                        Sent(l, side)[i].id != frame.id
    ensures Sound(WithSent(l, side, Sent(l, side) + [frame]))
  {
    var l' := WithSent(l, side, Sent(l, side) + [frame]);
    forall s: Side, i | 0 <= i < |Sent(l', s)|
      ensures FrameSound(l', s, Sent(l', s)[i])
    {
      assert i < |Sent(l, s)| ==> FrameSound(l, s, Sent(l, s)[i]);
    }
  }

  lemma PopKeepsSound(l: Link, side: Side)
    requires Sound(l) && Sent(l, side) != []
    ensures Sound(WithSent(l, side, Sent(l, side)[1..]))
  {
    var l' := WithSent(l, side, Sent(l, side)[1..]);
    forall s: Side, i | 0 <= i < |Sent(l', s)|
      ensures FrameSound(l', s, Sent(l', s)[i])
    {
      assert FrameSound(l, s, Sent(l, s)[if s == side then i + 1 else i]);
    }
  }

  lemma SendKeepsSound(l: Link, id: nat, ok: bool)
    requires Sound(l)
    ensures Sound(Next(l, Send(id, ok)))
  {
    if id < |l.calls| && l.calls[id].stage.Registered? {
      var call := l.calls[id];
      if ok {
        CallEditKeepsSound(l, id, call.(stage := Waiting));
        var l1 := WithCall(l, id, call.(stage := Waiting));
        forall i | 0 <= i < |Sent(l, call.side)| && Sent(l, call.side)[i].RequestFrame?
          ensures Sent(l, call.side)[i].id != id
        {
          assert FrameSound(l, call.side, Sent(l, call.side)[i]);
        }
        SentKeepsSound(l1, call.side, RequestFrame(id, call.role, call.request));
      } else {
        ForgottenSound(l, call.side, id);
        CallEditKeepsSound(Forgotten(l, call.side, id), id, call.(stage := Returned, result := Some(WriteFailed)));
      }
    }
  }

  lemma ForgottenSound(l: Link, side: Side, id: nat)
    requires Sound(l)
    ensures Sound(Forgotten(l, side, id))
  {
    EndShrinks(l, side, EndOf(l, side).(pending := EndOf(l, side).pending - {id}));
  }

  lemma ReaderStoppedSound(l: Link, side: Side)
    requires Sound(l)
    ensures Sound(ReaderStopped(l, side))
  {
    var end := EndOf(l, side);
    EndShrinks(l, side, End({}, end.draining + end.pending, false));
  }

  lemma ResponseReadSound(l: Link, side: Side, id: nat, body: string)
    requires Sound(l) && FrameSound(l, Other(side), ResponseFrame(id, body))
    ensures Sound(FrameRead(l, side, ResponseFrame(id, body)))
  {
    if id in EndOf(l, side).pending {
      var l1 := Forgotten(l, side, id);
      ForgottenSound(l, side, id);
      assert l.calls[id].side == side;
      assert id !in EndOf(l, Other(side)).pending && id !in EndOf(l, Other(side)).draining;
      CallEditKeepsSound(l1, id, l.calls[id].(mailbox := Some(Remote(body))));
    }
  }

  lemma RequestReadSound(l: Link, side: Side, id: nat, role: Role, request: string)
    requires Sound(l) && FrameSound(l, Other(side), RequestFrame(id, role, request))
    requires forall i :: 0 <= i < |Sent(l, Other(side))| && Sent(l, Other(side))[i].RequestFrame? ==>
               Sent(l, Other(side))[i].id != id
    ensures Sound(FrameRead(l, side, RequestFrame(id, role, request)))
  {
    var l' := FrameRead(l, side, RequestFrame(id, role, request));
    forall s: Side, i | 0 <= i < |Sent(l', s)|
      ensures FrameSound(l', s, Sent(l', s)[i])
    {
      assert FrameSound(l, s, Sent(l, s)[i]);
    }
  }

  lemma ReadKeepsSound(l: Link, side: Side)
    requires Sound(l)
    ensures Sound(Next(l, Read(side)))
  {
    hide Sound;
    var frames := Sent(l, Other(side));
    if EndOf(l, side).reading && frames != [] {
      PopKeepsSound(l, Other(side));
      var l1 := WithSent(l, Other(side), frames[1..]);
      HeadIsSound(l, Other(side));
      match frames[0] {
        case Stray => ReaderStoppedSound(l1, side);
        case ResponseFrame(id, body) => ResponseReadSound(l1, side, id, body);
        case RequestFrame(id, role, request) => RequestReadSound(l1, side, id, role, request);
      }
    }
  }

  lemma HeadIsSound(l: Link, side: Side)
    requires Sound(l) && Sent(l, side) != []
    ensures FrameSound(WithSent(l, side, Sent(l, side)[1..]), side, Sent(l, side)[0])
    ensures Sent(l, side)[0].RequestFrame? ==>
              forall i :: 0 <= i < |Sent(l, side)[1..]| && Sent(l, side)[1..][i].RequestFrame? ==>
                       Sent(l, side)[1..][i].id != Sent(l, side)[0].id
  {
    assert FrameSound(l, side, Sent(l, side)[0]);
  }

  /** A handler moving on, keeping an answer once given. */
  lemma HandlerEditKeepsSound(l: Link, id: nat, h: Handler)
    requires Sound(l) && id in l.handlers
    requires h.side == l.handlers[id].side && h.role == l.handlers[id].role && h.request == l.handlers[id].request
    requires l.handlers[id].answer.None? || h.answer == l.handlers[id].answer
    ensures Sound(l.(handlers := l.handlers[id := h]))
  {
    var l' := l.(handlers := l.handlers[id := h]);
    forall s: Side, i | 0 <= i < |Sent(l', s)|
      ensures FrameSound(l', s, Sent(l', s)[i])
    {
      assert FrameSound(l, s, Sent(l, s)[i]);
    }
  }

  lemma ReplyKeepsSound(l: Link, id: nat, ok: bool)
    requires Sound(l)
    ensures Sound(Next(l, Reply(id, ok)))
  {
    if id in l.handlers && l.handlers[id].answer.Some? && !l.handlers[id].replied {
      var h := l.handlers[id];
      HandlerEditKeepsSound(l, id, h.(replied := true));
      if ok {
        SentKeepsSound(l.(handlers := l.handlers[id := h.(replied := true)]), h.side,
                       ResponseFrame(id, h.answer.value));
      }
    }
  }

  lemma DrainKeepsSound(l: Link, side: Side, id: nat)
    requires Sound(l)
    ensures Sound(Next(l, Drain(side, id)))
  {
    var end := EndOf(l, side);
    if id in end.draining && id < |l.calls| {
      EndShrinks(l, side, end.(draining := end.draining - {id}));
      assert l.calls[id].side == side;
      assert id !in EndOf(l, Other(side)).pending && id !in EndOf(l, Other(side)).draining;
      CallEditKeepsSound(WithEnd(l, side, end.(draining := end.draining - {id})), id,
                         l.calls[id].(mailbox := Some(Disconnected)));
    }
  }

  lemma CallerKeepsSound(l: Link, s: Step)
    requires Sound(l) && (s.Receive? || s.TimeOut? || s.Forget?)
    ensures Sound(Next(l, s))
  {
    if s.id < |l.calls| {
      var call := l.calls[s.id];
      if s.Forget? && call.stage.Expiring? {
        ForgottenSound(l, call.side, s.id);
        CallEditKeepsSound(Forgotten(l, call.side, s.id), s.id, call.(stage := Returned, result := Some(TimedOut)));
      } else if Next(l, s) != l {
        CallEditKeepsSound(l, s.id, Next(l, s).calls[s.id]);
      }
    }
  }

  lemma StepKeepsSound(l: Link, s: Step)
    requires Sound(l)
    ensures Sound(Next(l, s))
  {
    hide Sound;
    match s
    case Place(side, role, request) => PlaceKeepsSound(l, side, role, request);
    case Send(id, ok) => SendKeepsSound(l, id, ok);
    case Read(side) => ReadKeepsSound(l, side);
    case Answer(id, body) =>
      if id in l.handlers && l.handlers[id].answer.None? {
        HandlerEditKeepsSound(l, id, l.handlers[id].(answer := Some(body)));
      }
    case Reply(id, ok) => ReplyKeepsSound(l, id, ok);
    case Break(side) => ReaderStoppedSound(l, side);
    case Drain(side, id) => DrainKeepsSound(l, side, id);
    case Inject(side) => SentKeepsSound(l, side, Stray);
    case _ => CallerKeepsSound(l, s);
  }

  lemma {:induction false} RunKeepsSound(l: Link, steps: seq<Step>)
    requires Sound(l)
    ensures Sound(Run(l, steps))
    decreases |steps|
  {
    hide Sound, Next;
    if steps != [] {
      StepKeepsSound(l, steps[0]);
      RunKeepsSound(Next(l, steps[0]), steps[1..]);
    }
  }

  // ---------------------------------------------------------------------- theorems

  /** In every interleaving, a call that has returned has either a local failure or the
      answer its own request got from the role it named on the other peer. */
  lemma CallsGetTheirOwnAnswer(steps: seq<Step>, id: nat)
    requires id < |Run(OPEN, steps).calls| && Run(OPEN, steps).calls[id].result.Some?
    ensures var l := Run(OPEN, steps);
            var r := l.calls[id].result.value;
            r.Remote? ==>
                  id in l.handlers && Serves(l.handlers[id], l.calls[id]) && l.handlers[id].answer == Some(r.body)
  {
    RunKeepsSound(OPEN, steps);
    assert CallsSound(Run(OPEN, steps));
  }

  /** Once returned, a call's result never changes; once a handler has answered, neither
      does its answer. */
  predicate Kept(l: Link, l': Link) {
    && |l.calls| <= |l'.calls|
    && (forall i :: 0 <= i < |l.calls| && l.calls[i].stage.Returned? ==>
          l'.calls[i].stage.Returned? && l'.calls[i].result == l.calls[i].result)
    && (forall i :: i in l.handlers && l.handlers[i].answer.Some? ==>
          i in l'.handlers && l'.handlers[i].answer == l.handlers[i].answer)
  }

  lemma ReadKeeps(l: Link, side: Side)
    requires Sound(l)
    ensures Kept(l, Next(l, Read(side)))
  {
    if EndOf(l, side).reading && Sent(l, Other(side)) != [] {
      HeadIsSound(l, Other(side));
      hide Sound, FrameSound;
    }
  }

  /** A call that has not returned may change; its link keeps every result. */
  lemma CallEditKeeps(l: Link, id: nat, call: Call)
    requires id < |l.calls|
             && (l.calls[id].stage.Returned? ==> call.stage.Returned? && call.result == l.calls[id].result)
    ensures Kept(l, WithCall(l, id, call))
  {
  }

  lemma CallerKeeps(l: Link, s: Step)
    requires s.Send? || s.Receive? || s.TimeOut? || s.Forget? || s.Drain?
    ensures Kept(l, Next(l, s))
  {
    hide FrameRead;
    if s.id < |l.calls| {
      CallEditKeeps(l, s.id, Next(l, s).calls[s.id]);
    }
  }

  lemma StepKeeps(l: Link, s: Step)
    requires Sound(l)
    ensures Kept(l, Next(l, s))
  {
    match s
    case Read(side) => ReadKeeps(l, side);
    case Place(side, role, request) => hide Sound;
    case Answer(id, body) => hide Sound;
    case Reply(id, ok) => hide Sound;
    case Break(side) => hide Sound;
    case Inject(side) => hide Sound;
    case _ => CallerKeeps(l, s);
  }

  lemma {:induction false} ReturnsOnce(l: Link, steps: seq<Step>)
    requires Sound(l)
    ensures Kept(l, Run(l, steps))
    decreases |steps|
  {
    hide Sound, Next;
    if steps != [] {
      StepKeeps(l, steps[0]);
      StepKeepsSound(l, steps[0]);
      ReturnsOnce(Next(l, steps[0]), steps[1..]);
      var m := Next(l, steps[0]);
      assert Kept(l, m) && Kept(m, Run(l, steps));
    }
  }

  // ---------------------------------------------------------- calls come back

  /** How many steps its own thread may still need. */
  function Rank(call: Call): nat {
    match call.stage
    case Registered => 3
    case Waiting => 2
    case Expiring => 1
    case Returned => 0
  }

  /** The next step of the thread of call `id`; `ok` is how writing its frame turns out. */
  function OwnStep(l: Link, id: nat, ok: bool): Step
    requires id < |l.calls| && !l.calls[id].stage.Returned?
  {
    match l.calls[id].stage
    case Registered => Send(id, ok)
    case Waiting => if l.calls[id].mailbox.Some? then Receive(id) else TimeOut(id)
    case Expiring => Forget(id)
  }

  predicate IsOwnStep(l: Link, id: nat, s: Step) {
    id < |l.calls| && !l.calls[id].stage.Returned? && exists ok :: s == OwnStep(l, id, ok)
  }

  lemma RankNeverRises(l: Link, s: Step, id: nat)
    requires id < |l.calls|
    ensures |l.calls| <= |Next(l, s).calls| && Rank(Next(l, s).calls[id]) <= Rank(l.calls[id])
  {
  }

  lemma OwnStepLowersRank(l: Link, id: nat, ok: bool)
    requires id < |l.calls| && !l.calls[id].stage.Returned?
    ensures |l.calls| <= |Next(l, OwnStep(l, id, ok)).calls|
    ensures Rank(Next(l, OwnStep(l, id, ok)).calls[id]) < Rank(l.calls[id])
  {
  }

  /** Another thread's step never sends a call back, and a step of its own thread always
      brings it closer to returning. */
  lemma RankFalls(l: Link, s: Step, id: nat)
    requires id < |l.calls|
    ensures |l.calls| <= |Next(l, s).calls| && Rank(Next(l, s).calls[id]) <= Rank(l.calls[id])
    ensures IsOwnStep(l, id, s) ==> Rank(Next(l, s).calls[id]) < Rank(l.calls[id])
  {
    RankNeverRises(l, s, id);
    hide Next, Rank, OwnStep;
    if IsOwnStep(l, id, s) {
      var ok :| s == OwnStep(l, id, ok);
      OwnStepLowersRank(l, id, ok);
    }
  }

  /** How often the thread of call `id` gets its turn in the run. */
  ghost function Turns(l: Link, steps: seq<Step>, id: nat): nat
    decreases |steps|
  {
    if steps == [] then 0
    else (if IsOwnStep(l, id, steps[0]) then 1 else 0) + Turns(Next(l, steps[0]), steps[1..], id)
  }

  lemma {:induction false} TurnsLowerRank(l: Link, steps: seq<Step>, id: nat)
    requires id < |l.calls|
    ensures |l.calls| <= |Run(l, steps).calls|
    ensures Rank(Run(l, steps).calls[id]) + Turns(l, steps, id) <= Rank(l.calls[id])
    decreases |steps|
  {
    hide Next, Rank, IsOwnStep;
    if steps != [] {
      RankFalls(l, steps[0], id);
      TurnsLowerRank(Next(l, steps[0]), steps[1..], id);
    }
  }

  /** In every run in which the call's thread gets three turns the call has returned,
      however writing its frame turned out and whatever every other thread did. */
  lemma ThreeTurnsReturn(l: Link, steps: seq<Step>, id: nat)
    requires id < |l.calls| && Turns(l, steps, id) >= 3
    ensures id < |Run(l, steps).calls| && Run(l, steps).calls[id].stage.Returned?
  {
    TurnsLowerRank(l, steps, id);
  }

  lemma OwnStepIsOwn(l: Link, id: nat, ok: bool)
    requires id < |l.calls| && !l.calls[id].stage.Returned?
    ensures IsOwnStep(l, id, OwnStep(l, id, ok))
  {
  }

  lemma FirstTurn(l: Link, s: Step, steps: seq<Step>, id: nat)
    requires IsOwnStep(l, id, s)
    ensures Run(l, [s] + steps) == Run(Next(l, s), steps)
    ensures Turns(l, [s] + steps, id) == 1 + Turns(Next(l, s), steps, id)
  {
    assert ([s] + steps)[1..] == steps;
  }

  /** The call returns within these steps, all of them its own, the first of which writes
      its frame, with outcome `ok`, if that is still to be done. */
  ghost predicate Returns(l: Link, steps: seq<Step>, id: nat, ok: bool)
    requires id < |l.calls|
  {
    && id < |Run(l, steps).calls| && Run(l, steps).calls[id].stage.Returned? && Turns(l, steps, id) == |steps|
    && (l.calls[id].stage.Registered? ==> steps != [] && steps[0] == Send(id, ok))
  }

  lemma OneMoreTurn(l: Link, id: nat, ok: bool, steps: seq<Step>)
    requires id < |l.calls| && !l.calls[id].stage.Returned? && id < |Next(l, OwnStep(l, id, ok)).calls|
    requires Returns(Next(l, OwnStep(l, id, ok)), steps, id, ok)
    ensures Returns(l, [OwnStep(l, id, ok)] + steps, id, ok)
  {
    hide Next, Run, Turns;
    OwnStepIsOwn(l, id, ok);
    FirstTurn(l, OwnStep(l, id, ok), steps, id);
  }

  /** A turn is always to be had: the thread of a call that has not returned is never
      blocked, whether its frame can be written or not. */
  lemma {:induction false} CanAlwaysReturn(l: Link, id: nat, ok: bool)
    requires id < |l.calls|
    ensures exists steps :: Returns(l, steps, id, ok)
    decreases Rank(l.calls[id])
  {
    if l.calls[id].stage.Returned? {
      assert Returns(l, [], id, ok);
    } else {
      hide Next, Returns, Rank;
      OwnStepLowersRank(l, id, ok);
      var next := Next(l, OwnStep(l, id, ok));
      CanAlwaysReturn(next, id, ok);
      var steps :| Returns(next, steps, id, ok);
      OneMoreTurn(l, id, ok, steps);
    }
  }

  // ---------------------------------------------------------------- disconnection

  /** The sender of call `id` was taken at disconnect: it is still to be used, or its
      mailbox says so. */
  ghost predicate TakenOrTold(l: Link, side: Side, id: nat) {
    && id < |l.calls| && l.calls[id].side == side
    && id !in l.left.pending && id !in l.right.pending
    && (id in EndOf(l, side).draining || l.calls[id].mailbox == Some(Disconnected))
  }

  lemma ReadKeepsTaken(l: Link, reader: Side, side: Side, id: nat)
    requires Sound(l) && TakenOrTold(l, side, id)
    ensures TakenOrTold(Next(l, Read(reader)), side, id)
  {
    hide CallsSound, HandlersSound, WireSound;
  }

  lemma StepKeepsTaken(l: Link, s: Step, side: Side, id: nat)
    requires Sound(l) && TakenOrTold(l, side, id)
    ensures TakenOrTold(Next(l, s), side, id)
  {
    if s.Read? {
      ReadKeepsTaken(l, s.side, side, id);
    } else {
      hide CallsSound, HandlersSound, WireSound, FrameRead;
    }
  }

  lemma {:induction false} RunKeepsTaken(l: Link, steps: seq<Step>, side: Side, id: nat)
    requires Sound(l) && TakenOrTold(l, side, id)
    ensures TakenOrTold(Run(l, steps), side, id)
    decreases |steps|
  {
    hide Sound, Next, TakenOrTold;
    if steps != [] {
      StepKeepsTaken(l, steps[0], side, id);
      StepKeepsSound(l, steps[0]);
      RunKeepsTaken(Next(l, steps[0]), steps[1..], side, id);
    }
  }

  /** When a reader stops, its pending map is empty at once, and whatever runs afterwards:
      once the drain is done, every call that was pending has been told. */
  lemma StoppedReaderHoldsNothing(l: Link, side: Side, steps: seq<Step>)
    requires Sound(l) && EndOf(l, side).reading
    ensures EndOf(Next(l, Break(side)), side).pending == {} && !EndOf(Next(l, Break(side)), side).reading
    ensures var l' := Run(Next(l, Break(side)), steps);
            EndOf(l', side).draining == {} ==>
              forall id :: id in EndOf(l, side).pending ==>
                       id < |l'.calls| && l'.calls[id].mailbox == Some(Disconnected)
  {
    var stopped := Next(l, Break(side));
    StepKeepsSound(l, Break(side));
    forall id | id in EndOf(l, side).pending
      ensures TakenOrTold(Run(stopped, steps), side, id)
    {
      assert l.calls[id].side == side;
      StoppedTakes(l, side, id);
      RunKeepsTaken(stopped, steps, side, id);
    }
  }

  lemma StoppedTakes(l: Link, side: Side, id: nat)
    requires Sound(l) && EndOf(l, side).reading && id in EndOf(l, side).pending
    ensures TakenOrTold(Next(l, Break(side)), side, id)
  {
    hide CallsSound, HandlersSound, WireSound;
    assert EndSound(l, Left) && EndSound(l, Right);
  }

  /** Each step of the drain uses one sender and takes no other back. */
  lemma DrainProceeds(l: Link, side: Side, id: nat)
    requires Sound(l) && id in EndOf(l, side).draining
    ensures EndOf(Next(l, Drain(side, id)), side).draining == EndOf(l, side).draining - {id}
    ensures id < |l.calls| && Next(l, Drain(side, id)).calls[id].mailbox == Some(Disconnected)
  {
    assert EndSound(l, side);
  }
}
