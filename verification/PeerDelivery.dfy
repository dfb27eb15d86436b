/** What gets through: requests reach a handler on the other side, and answers reach the
    call that waits for them. */
module PeerDelivery {
  import opened Common
  import opened Peer

  // ------------------------------------------------------------------- one frame

  /** A running reader that reads an answer to a call pending on its side puts exactly that
      answer into the call's mailbox, and the call is pending no more. */
  lemma AnswerIsDelivered(l: Link, side: Side, id: nat, body: string)
    requires Sound(l) && EndOf(l, side).reading && id in EndOf(l, side).pending
    requires Sent(l, Other(side)) != [] && Sent(l, Other(side))[0] == ResponseFrame(id, body)
    ensures var l' := Next(l, Read(side));
            && |l'.calls| == |l.calls| && id < |l'.calls| && l'.calls[id].mailbox == Some(Remote(body))
            && l'.calls[id].stage == l.calls[id].stage && !l'.calls[id].stage.Registered?
            && id !in EndOf(l', side).pending && EndOf(l', side).reading
            && Sent(l', Other(side)) == Sent(l, Other(side))[1..] && Sent(l', side) == Sent(l, side)
  {
    assert EndSound(l, side) && WireSound(l, Other(side));
    assert FrameSound(l, Other(side), Sent(l, Other(side))[0]);
    assert CallsSound(l);
  }

  /** A request frame that is read starts its own handler on the reading side. */
  lemma RequestIsHandled(l: Link, side: Side, id: nat, role: Role, request: string)
    requires EndOf(l, side).reading
    requires Sent(l, Other(side)) != [] && Sent(l, Other(side))[0] == RequestFrame(id, role, request)
    ensures Next(l, Read(side)).handlers == l.handlers[id := Handler(side, role, request, None, false)]
    ensures Sent(Next(l, Read(side)), Other(side)) == Sent(l, Other(side))[1..]
  {
  }

  /** Nothing else is done with an answer: to a call not pending here it is dropped. */
  lemma LateAnswerIsDropped(l: Link, side: Side, id: nat, body: string)
    requires EndOf(l, side).reading && id !in EndOf(l, side).pending
    requires Sent(l, Other(side)) != [] && Sent(l, Other(side))[0] == ResponseFrame(id, body)
    ensures Next(l, Read(side)) == WithSent(l, Other(side), Sent(l, Other(side))[1..])
  {
  }

  // ----------------------------------------------------------------- every later run

  /** The answer is in the mailbox, and nobody else holds the sender. */
  ghost predicate Delivered(l: Link, id: nat, body: string) {
    && id < |l.calls| && l.calls[id].mailbox == Some(Remote(body)) && !l.calls[id].stage.Registered?
    && id !in l.left.pending && id !in l.right.pending && id !in l.left.draining && id !in l.right.draining
  }

  lemma MailIsHeldOnce(l: Link, id: nat, body: string)
    requires Sound(l) && id < |l.calls| && l.calls[id].mailbox == Some(Remote(body)) && !l.calls[id].stage.Registered?
    ensures Delivered(l, id, body)
  {
    assert EndSound(l, Left) && EndSound(l, Right);
  }

  /** The call still waits, with its mail, or has returned exactly that. */
  ghost predicate WillReturn(l: Link, id: nat, body: string) {
    && Delivered(l, id, body)
    && (l.calls[id].stage.Waiting? || (l.calls[id].stage.Returned? && l.calls[id].result == Some(Remote(body))))
  }

  lemma StepKeepsMail(l: Link, s: Step, id: nat, body: string)
    requires Sound(l) && WillReturn(l, id, body)
    ensures id < |Next(l, s).calls| && Next(l, s).calls[id].mailbox == Some(Remote(body))
    ensures Next(l, s).calls[id].stage.Waiting?
            || (Next(l, s).calls[id].stage.Returned? && Next(l, s).calls[id].result == Some(Remote(body)))
    ensures IsOwnStep(l, id, s) ==> Next(l, s).calls[id].stage.Returned?
  {
    hide Sound;
  }

  /** Once delivered to a waiting call, an answer is what the call returns: in every later
      run it waits or has returned it, and after one turn of its thread it has. */
  lemma {:induction false} AnswerIsReturned(l: Link, steps: seq<Step>, id: nat, body: string)
    requires Sound(l) && WillReturn(l, id, body)
    ensures WillReturn(Run(l, steps), id, body)
    ensures Turns(l, steps, id) > 0 ==> Run(l, steps).calls[id].stage.Returned?
    ensures l.calls[id].stage.Returned? ==> Run(l, steps).calls[id].stage.Returned?
    decreases |steps|
  {
    if steps != [] {
      StepKeepsMail(l, steps[0], id, body);
      StepKeepsSound(l, steps[0]);
      if l.calls[id].stage.Returned? {
        StaysReturned(l, steps[0], id);
      }
      var m := Next(l, steps[0]);
      MailIsHeldOnce(m, id, body);
      hide Next, Sound, IsOwnStep, Delivered;
      AnswerIsReturned(m, steps[1..], id, body);
    }
  }

  lemma StaysReturned(l: Link, s: Step, id: nat)
    requires id < |l.calls| && l.calls[id].stage.Returned?
    ensures id < |Next(l, s).calls| && Next(l, s).calls[id].stage.Returned?
  {
    RankNeverRises(l, s, id);
  }

  /** A call whose frame cannot be written returns that failure, one that waited too long the
      timeout, and one told of the disconnect that; each is pending no more. */
  lemma FailuresAreNamed(l: Link, id: nat)
    requires id < |l.calls|
    ensures l.calls[id].stage.Registered? ==>
              var l' := Next(l, Send(id, false));
              l'.calls[id].result == Some(WriteFailed) && id !in EndOf(l', l.calls[id].side).pending
    ensures l.calls[id].stage.Waiting? && l.calls[id].mailbox.None? ==>
              var l' := Next(Next(l, TimeOut(id)), Forget(id));
              l'.calls[id].result == Some(TimedOut) && id !in EndOf(l', l.calls[id].side).pending
    ensures l.calls[id].stage.Waiting? && l.calls[id].mailbox == Some(Disconnected) ==>
              Next(l, Receive(id)).calls[id].result == Some(Disconnected)
  {
  }

  // -------------------------------------------------------------- reading the queue

  ghost predicate NoneStray(frames: seq<Frame>) {
    forall i :: 0 <= i < |frames| ==> !frames[i].Stray?
  }

  function Reads(side: Side, n: nat): seq<Step> {
    if n == 0 then [] else [Read(side)] + Reads(side, n - 1)
  }

  /** A running reader gets through every frame sent to it, in order, up to a stray one. */
  lemma {:induction false} ReaderGetsThrough(l: Link, side: Side, n: nat)
    requires EndOf(l, side).reading && n <= |Sent(l, Other(side))| && NoneStray(Sent(l, Other(side))[..n])
    ensures var l' := Run(l, Reads(side, n));
            EndOf(l', side).reading && Sent(l', Other(side)) == Sent(l, Other(side))[n..]
    decreases n
  {
    if n > 0 {
      var m := Next(l, Read(side));
      assert !Sent(l, Other(side))[..n][0].Stray?;
      assert Reads(side, n)[1..] == Reads(side, n - 1);
      assert Sent(m, Other(side))[..n - 1] == Sent(l, Other(side))[..n][1..];
      assert Sent(l, Other(side))[1..][n - 1..] == Sent(l, Other(side))[n..];
      ReaderGetsThrough(m, side, n - 1);
    }
  }

  /** A stray frame stops the reader. */
  lemma StrayStopsReader(l: Link, side: Side)
    requires EndOf(l, side).reading && Sent(l, Other(side)) != [] && Sent(l, Other(side))[0].Stray?
    ensures !EndOf(Next(l, Read(side)), side).reading
  {
  }

  // ------------------------------------------------------------ the plain exchange

  /** Place a call, write it, read it there, answer, write the answer, read it here, receive. */
  function Exchange(l: Link, side: Side, role: Role, request: string, body: string): seq<Step> {
    var id := |l.calls|;
    [Place(side, role, request), Send(id, true), Read(Other(side)), Answer(id, body), Reply(id, true), Read(side),
     Receive(id)]
  }

  /** Call `id` waits, pending on its side, both readers run, and these frames are under way. */
  ghost predicate UnderWay(l: Link, id: nat, side: Side, role: Role, request: string, out: seq<Frame>,
                           back: seq<Frame>) {
    && id < |l.calls| && l.calls[id] == Call(side, role, request, Waiting, None, None)
    && id in EndOf(l, side).pending && l.left.reading && l.right.reading
    && Sent(l, side) == out && Sent(l, Other(side)) == back
  }

  lemma CallGoesOut(l: Link, side: Side, role: Role, request: string)
    requires l.left.reading && l.right.reading && l.sentLeft == [] && l.sentRight == []
    ensures var id := |l.calls|;
            UnderWay(Next(Next(l, Place(side, role, request)), Send(id, true)), id, side, role, request,
                     [RequestFrame(id, role, request)], [])
  {
    var id := |l.calls|;
    var l1 := Next(l, Place(side, role, request));
    assert l1.calls[id] == Call(side, role, request, Registered, None, None) && id in EndOf(l1, side).pending;
    assert Sent(l1, side) == [] && Sent(l1, Other(side)) == [];
  }

  lemma CallIsHandled(l: Link, id: nat, side: Side, role: Role, request: string)
    requires UnderWay(l, id, side, role, request, [RequestFrame(id, role, request)], [])
    ensures var l' := Next(l, Read(Other(side)));
            UnderWay(l', id, side, role, request, [], []) && id in l'.handlers
            && l'.handlers[id] == Handler(Other(side), role, request, None, false)
  {
    assert Other(Other(side)) == side;
  }

  lemma HandlerAnswers(l: Link, id: nat, side: Side, role: Role, request: string, body: string)
    requires UnderWay(l, id, side, role, request, [], []) && id in l.handlers
    requires l.handlers[id] == Handler(Other(side), role, request, None, false)
    ensures var l' := Next(Next(l, Answer(id, body)), Reply(id, true));
            UnderWay(l', id, side, role, request, [], [ResponseFrame(id, body)]) && id in l'.handlers
            && l'.handlers[id] == Handler(Other(side), role, request, Some(body), true)
  {
    var l1 := Next(l, Answer(id, body));
    assert l1.handlers[id] == Handler(Other(side), role, request, Some(body), false);
    assert UnderWay(l1, id, side, role, request, [], []);
  }

  lemma AnswerComesBack(l: Link, id: nat, side: Side, role: Role, request: string, body: string)
    requires UnderWay(l, id, side, role, request, [], [ResponseFrame(id, body)])
    ensures var l' := Next(Next(l, Read(side)), Receive(id));
            && l'.handlers == l.handlers && id < |l'.calls|
            && l'.calls[id] == Call(side, role, request, Returned, Some(Remote(body)), Some(Remote(body)))
  {
    var l1 := Next(l, Read(side));
    assert l1.calls[id] == Call(side, role, request, Waiting, Some(Remote(body)), None);
  }

  /** While both readers run and nothing else is on the wire, a call comes back with what its
      handler answered. */
  lemma ExchangeReturnsAnswer(l: Link, side: Side, role: Role, request: string, body: string)
    requires l.left.reading && l.right.reading && l.sentLeft == [] && l.sentRight == []
    ensures var id := |l.calls|; var l' := Run(l, Exchange(l, side, role, request, body));
            && id < |l'.calls| && l'.calls[id].stage.Returned? && l'.calls[id].result == Some(Remote(body))
            && id in l'.handlers && Serves(l'.handlers[id], l'.calls[id])
  {
    hide Next, Run, UnderWay;
    var id := |l.calls|;
    CallGoesOut(l, side, role, request);
    var l2 := Next(Next(l, Place(side, role, request)), Send(id, true));
    CallIsHandled(l2, id, side, role, request);
    var l3 := Next(l2, Read(Other(side)));
    HandlerAnswers(l3, id, side, role, request, body);
    var l5 := Next(Next(l3, Answer(id, body)), Reply(id, true));
    AnswerComesBack(l5, id, side, role, request, body);
    SevenSteps(l, Exchange(l, side, role, request, body));
  }

  lemma OneStep(l: Link, s: seq<Step>)
    requires s != []
    ensures Run(l, s) == Run(Next(l, s[0]), s[1..])
  {
  }

  lemma SevenSteps(l: Link, s: seq<Step>)
    requires |s| == 7
    ensures Run(l, s) == Next(Next(Next(Next(Next(Next(Next(l, s[0]), s[1]), s[2]), s[3]), s[4]), s[5]), s[6])
  {
    var l3 := Next(Next(Next(l, s[0]), s[1]), s[2]);
    var l6 := Next(Next(Next(l3, s[3]), s[4]), s[5]);
    assert Run(Next(l6, s[6]), []) == Next(l6, s[6]);
    hide Next, Run;
    assert s[1..][1..] == s[2..] && s[2..][1..] == s[3..] && s[3..][1..] == s[4..];
    assert s[4..][1..] == s[5..] && s[5..][1..] == s[6..] && s[6..][1..] == [];
    OneStep(l, s);
    OneStep(Next(l, s[0]), s[1..]);
    OneStep(Next(Next(l, s[0]), s[1]), s[2..]);
    OneStep(l3, s[3..]);
    OneStep(Next(l3, s[3]), s[4..]);
    OneStep(Next(Next(l3, s[3]), s[4]), s[5..]);
    OneStep(l6, s[6..]);
  }
}
