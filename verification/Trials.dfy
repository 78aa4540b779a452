/**
  One client playing one game over datagrams that may be lost, duplicated, delayed and reordered:
  whatever was sent once may arrive any number of times, at any later moment, or never.
 */
module Trials {
  import opened Wrappers
  import opened GameFile
  import opened Mastermind

  /** A TRY as the client sends it. */
  datatype Request = Request(guess: string, number: nat)

  /** `current` is the number of the last trial the client knows of; a client that got a bad answer has stopped. */
  datatype Client = Client(inGame: bool, stopped: bool, current: nat, waiting: Option<Request>)

  /** `sent` and `replies` are all that was ever sent in either direction. */
  datatype State = State(client: Client, server: Game, sent: set<Request>, replies: set<Reply>)

  function Init(g: Game): State {
    State(Client(true, false, 0, None), g, {}, {})
  }

  // ---------- the steps ----------

  /** The player tries a guess: the client numbers it after the last trial it knows of. */
  function Send(s: State, guess: string): State {
    var request := Request(guess, s.client.current + 1);
    s.(client := s.client.(waiting := Some(request)), sent := s.sent + {request})
  }

  /** The server gets a request that was sent at some time. */
  function Serve(s: State, request: Request, t: Clock): State
    requires ActiveOk(s.server) && |request.guess| == |s.server.key| && t.Valid(s.server.start)
  {
    var (reply, g) := TryStep(s.server, request.guess, request.number, t);
    s.(server := g, replies := s.replies + {reply})
  }

  /** The client takes a reply, whichever request it answered, for the answer to the request it waits on. */
  function Receive(s: State, reply: Reply): State {
    var c := s.client.(waiting := None);
    s.(client :=
      match reply
      case DUP => c
      case INV => c.(inGame := false)
      case NOK => c.(inGame := false)
      case ENT(_) => c.(inGame := false)
      case ETM(_) => c.(inGame := false)
      case OK(number, nB, nW) =>
        var c' := c.(current := c.current + 1);
        if nB < 0 || nW < 0 || number != c'.current || nB + nW > GUESS_SIZE then c'.(stopped := true)
        else if nB == GUESS_SIZE then c'.(inGame := false) else c')
  }

  /** No answer arrived in time, or something else went wrong: the client stops. */
  function GiveUp(s: State): State {
    s.(client := s.client.(waiting := None, stopped := true))
  }

  /** The game ends for another reason: the player quits, or its time is found to be up. */
  function EndGame(s: State, reason: char, now: nat): State {
    s.(server := s.server.(ended := reason, end := Min(now, s.server.start + s.server.duration)))
  }

  predicate Playing(c: Client) { c.inGame && !c.stopped }

  ghost predicate CanServe(s: State, request: Request, t: Clock) {
    request in s.sent && ActiveOk(s.server) && |request.guess| == |s.server.key| && t.Valid(s.server.start)
  }

  ghost predicate CanEnd(s: State, reason: char, now: nat) {
    s.server.ended == ONGOING && reason in {QUIT, LOST_TIME} && now < SIZE_MAX &&
      s.server.start + s.server.duration < SIZE_MAX
  }

  ghost predicate Next(s: State, s': State) {
    || (exists guess ::
          Playing(s.client) && s.client.waiting.None? && IsField(guess) && |guess| == GUESS_SIZE &&
            s' == Send(s, guess))
    || (exists request, t: Clock :: CanServe(s, request, t) && s' == Serve(s, request, t))
    || (exists reply :: !s.client.stopped && s.client.waiting.Some? && reply in s.replies && s' == Receive(s, reply))
    || (s.client.waiting.Some? && s' == GiveUp(s))
    || (exists reason, now :: CanEnd(s, reason, now) && s' == EndGame(s, reason, now))
  }

  // ---------- what the steps keep ----------

  ghost predicate Distinct(trials: seq<Trial>) {
    forall i, j :: 0 <= i < j < |trials| ==> trials[i].guess != trials[j].guess
  }

  /** Every recorded trial has the right score. */
  ghost predicate AllScored(g: Game) {
    forall i :: 0 <= i < |g.trials| ==> Scored(g.key, g.trials[i])
  }

  /** The trial a request asked for under its number. */
  ghost predicate FromRequest(s: State, i: nat)
    requires i < |s.server.trials|
  {
    Request(s.server.trials[i].guess, i + 1) in s.sent
  }

  /** An OK answer is that of the recorded trial with its number. */
  ghost predicate ReplyOk(g: Game, reply: Reply) {
    reply.OK? ==>
      0 < reply.number <= |g.trials| && reply.nB == g.trials[reply.number - 1].nB &&
        reply.nW == g.trials[reply.number - 1].nW
  }

  ghost predicate Inv(s: State) {
    && ActiveOk(s.server) && |s.server.key| == GUESS_SIZE
    && Distinct(s.server.trials) && AllScored(s.server)
    && (forall i: nat :: i < |s.server.trials| ==> FromRequest(s, i))
    && (forall r :: r in s.sent ==>
        IsField(r.guess) && |r.guess| == GUESS_SIZE && (!s.client.stopped ==> 0 < r.number <= s.client.current + 1))
    && (forall r :: r in s.replies ==> ReplyOk(s.server, r))
    && (!s.client.stopped ==> s.client.current <= |s.server.trials| <= s.client.current + 1)
  }

  /** A recorded guess differs from all that were recorded before. */
  lemma NewGuess(trials: seq<Trial>, t: Trial)
    requires |trials| <= MAX_TRIALS && Distinct(trials) && Duplicate(trials, t.guess, 0) == MAX_TRIALS + 1
    ensures Distinct(trials + [t])
  {
    DuplicateFinds(trials, t.guess, 0);
  }

  /** The answer itself tells of a recorded trial. */
  lemma AnswerOk(g: Game, play: string, number: nat, t: Clock)
    requires ActiveOk(g) && IsField(play) && |play| == |g.key| && t.Valid(g.start)
    ensures ReplyOk(TryStep(g, play, number, t).1, TryStep(g, play, number, t).0)
  {
    EndedKeeps(g, t.found);
    EndedKeeps(EndedBy(g, t.found), t.checked);
    hide GameOk, TrialOf, EndedBy, Guessed, Verdict;
    var g1 := EndedBy(EndedBy(g, t.found), t.checked);
    if g.ended == ONGOING && g1.ended == ONGOING {
      GuessedKeeps(g1, play, t);
      DuplicateFinds(g1.trials, play, 0);
    }
  }

  lemma ServedTrials(s: State, request: Request, t: Clock)
    requires Inv(s) && CanServe(s, request, t)
    ensures var g, g' := s.server, Serve(s, request, t).server;
            && ActiveOk(g') && g'.key == g.key
            && (g'.trials == g.trials ||
                (request.number == |g.trials| + 1 && g'.trials == g.trials + [TrialOf(g, request.guess, t.written)]))
            && Distinct(g'.trials) && AllScored(g')
  {
    var g, g' := s.server, Serve(s, request, t).server;
    TryKeeps(g, request.guess, request.number, t);
    hide TryStep;
    if g'.trials != g.trials {
      NewGuess(g.trials, TrialOf(g, request.guess, t.written));
      ScoreIs(g, request.guess, t.written);
      hide TrialOf, Scored, Distinct;
    }
  }

  lemma ServedRequests(s: State, request: Request, t: Clock)
    requires Inv(s) && CanServe(s, request, t)
    ensures forall i: nat :: i < |Serve(s, request, t).server.trials| ==> FromRequest(Serve(s, request, t), i)
  {
    var g, s' := s.server, Serve(s, request, t);
    ServedTrials(s, request, t);
    hide TryStep, ActiveOk, Distinct, AllScored;
    forall i: nat | i < |s'.server.trials|
      ensures FromRequest(s', i)
    {
      if i < |g.trials| {
        assert FromRequest(s, i);
      }
    }
  }

  lemma ServeKeeps(s: State, request: Request, t: Clock)
    requires Inv(s) && CanServe(s, request, t)
    ensures Inv(Serve(s, request, t))
  {
    var g, s' := s.server, Serve(s, request, t);
    ServedTrials(s, request, t);
    ServedRequests(s, request, t);
    AnswerOk(g, request.guess, request.number, t);
    hide TryStep, ActiveOk, Distinct, AllScored, FromRequest;
    forall r | r in s'.replies
      ensures ReplyOk(s'.server, r)
    {
      if r in s.replies {
        assert ReplyOk(g, r);
      }
    }
  }

  lemma ReceiveKeeps(s: State, reply: Reply)
    requires Inv(s) && !s.client.stopped && reply in s.replies
    ensures Inv(Receive(s, reply))
  {
    var s' := Receive(s, reply);
    assert ReplyOk(s.server, reply);
    forall i: nat | i < |s'.server.trials|
      ensures FromRequest(s', i)
    {
      assert FromRequest(s, i);
    }
  }

  lemma SendKeeps(s: State, guess: string)
    requires Inv(s) && IsField(guess) && |guess| == GUESS_SIZE
    ensures Inv(Send(s, guess))
  {
    forall i: nat | i < |s.server.trials|
      ensures FromRequest(Send(s, guess), i)
    {
      assert FromRequest(s, i);
    }
  }

  lemma StopKeeps(s: State)
    requires Inv(s)
    ensures Inv(GiveUp(s))
  {
    forall i: nat | i < |s.server.trials|
      ensures FromRequest(GiveUp(s), i)
    {
      assert FromRequest(s, i);
    }
  }

  lemma EndKeeps(s: State, reason: char, now: nat)
    requires Inv(s) && CanEnd(s, reason, now)
    ensures Inv(EndGame(s, reason, now))
  {
    forall i: nat | i < |s.server.trials|
      ensures FromRequest(EndGame(s, reason, now), i)
    {
      assert FromRequest(s, i);
    }
    forall r | r in s.replies
      ensures ReplyOk(EndGame(s, reason, now).server, r)
    {
      assert ReplyOk(s.server, r);
    }
  }

  lemma NextKeeps(s: State, s': State)
    requires Inv(s) && Next(s, s')
    ensures Inv(s')
  {
    hide Inv, Send, Serve, Receive, GiveUp, EndGame;
    if guess :| IsField(guess) && |guess| == GUESS_SIZE && s' == Send(s, guess) {
      SendKeeps(s, guess);
    } else if request, t: Clock :| CanServe(s, request, t) && s' == Serve(s, request, t) {
      ServeKeeps(s, request, t);
    } else if reply :| !s.client.stopped && reply in s.replies && s' == Receive(s, reply) {
      ReceiveKeeps(s, reply);
    } else if s' == GiveUp(s) {
      StopKeeps(s);
    } else {
      var reason, now :| CanEnd(s, reason, now) && s' == EndGame(s, reason, now);
      EndKeeps(s, reason, now);
    }
  }

  // ---------- runs ----------

  ghost predicate Link(run: seq<State>, i: nat)
    requires i + 1 < |run|
  {
    Next(run[i], run[i + 1])
  }

  /** A run from a game that has just been created. */
  ghost predicate IsRun(g: Game, run: seq<State>) {
    && ActiveOk(g) && g.trials == [] && run != [] && run[0] == Init(g)
    && forall i: nat :: i + 1 < |run| ==> Link(run, i)
  }

  lemma {:induction false} RunKeeps(g: Game, run: seq<State>, i: nat)
    requires IsRun(g, run) && i < |run|
    ensures Inv(run[i])
  {
    if i > 0 {
      hide Inv, Next, Init;
      RunKeeps(g, run, i - 1);
      assert Link(run, i - 1);
      NextKeeps(run[i - 1], run[i]);
    }
  }

  /** At most once: recorded guesses are pairwise distinct, each was sent under the number it is recorded
      under, and a client that goes on is never ahead of the server nor more than one trial behind. */
  lemma AtMostOnce(g: Game, run: seq<State>, i: nat)
    requires IsRun(g, run) && i < |run|
    ensures Distinct(run[i].server.trials) && |run[i].server.trials| <= MAX_TRIALS && AllScored(run[i].server)
    ensures forall k: nat :: k < |run[i].server.trials| ==> FromRequest(run[i], k)
    ensures !run[i].client.stopped ==> run[i].client.current <= |run[i].server.trials| <= run[i].client.current + 1
  {
    RunKeeps(g, run, i);
  }

  /** What is recorded stays recorded: a step adds at most one trial, at the end. */
  lemma RecordedStays(s: State, s': State)
    requires Inv(s) && Next(s, s')
    ensures s.server.trials <= s'.server.trials && |s'.server.trials| <= |s.server.trials| + 1
  {
    if s'.server.trials != s.server.trials {
      assert !(exists guess :: s' == Send(s, guess)) && !(exists reply :: s' == Receive(s, reply)) && s' != GiveUp(s);
      var request, t: Clock :| CanServe(s, request, t) && s' == Serve(s, request, t);
      TryKeeps(s.server, request.guess, request.number, t);
      var trial := TrialOf(s.server, request.guess, t.written);
      assert s'.server.trials == s.server.trials + [trial] && s.server.trials <= s.server.trials + [trial];
    } else {
      assert s.server.trials <= s.server.trials;
    }
  }

  /** A resend of the last trial is answered with its result and leaves the game as it is. */
  ghost predicate AnsweredAgain(g: Game, t: Clock) {
    && ActiveOk(g) && g.trials != [] && t.Valid(g.start) && |g.trials[|g.trials| - 1].guess| == |g.key|
    && TryStep(g, g.trials[|g.trials| - 1].guess, |g.trials|, t) == (LastOk(g), g)
  }

  /** While the game is under way, the last trial, sent again, gets the answer it got and changes nothing. */
  lemma ResendSame(g: Game, run: seq<State>, i: nat, t: Clock)
    requires IsRun(g, run) && i < |run| && run[i].server.ended == ONGOING && run[i].server.trials != []
    requires t.Valid(run[i].server.start) && t.checked <= run[i].server.start + run[i].server.duration
    ensures AnsweredAgain(run[i].server, t)
    ensures forall r :: r in run[i].replies && r.OK? && r.number == |run[i].server.trials| ==>
              r == LastOk(run[i].server)
  {
    RunKeeps(g, run, i);
    var server, n := run[i].server, |run[i].server.trials|;
    DuplicateFinds(server.trials, server.trials[n - 1].guess, 0);
    assert TrialOk(server.trials[n - 1]);
    forall r | r in run[i].replies && r.OK? && r.number == n
      ensures r == LastOk(server)
    {
      assert ReplyOk(server, r);
    }
  }

  // ---------- an exchange without faults ----------

  /** The client sends a guess, the server gets it and the client gets the answer. */
  function Exchange(s: State, guess: string, t: Clock): State
    requires ActiveOk(s.server) && |guess| == |s.server.key| && t.Valid(s.server.start)
  {
    var sent := Send(s, guess);
    Receive(Serve(sent, sent.client.waiting.value, t),
            TryStep(s.server, guess, s.client.current + 1, t).0)
  }

  /** Client and server agree on the trials so far, and the client waits for nothing. */
  ghost predicate InStep(s: State) {
    Playing(s.client) && s.client.waiting.None? && s.client.current == |s.server.trials|
  }

  /** The answer that a played guess gets is one that the client takes for good. */
  lemma PlayedScore(g: Game, guess: string, number: nat, t: Clock)
    requires ActiveOk(g) && |g.key| == GUESS_SIZE && IsField(guess) && |guess| == GUESS_SIZE && t.Valid(g.start)
    requires Plays(g, guess, number, t)
    ensures var (reply, g') := TryStep(g, guess, number, t);
            && |g'.trials| == number && g'.trials[number - 1].guess == guess
            && (reply.OK? || reply.ENT? || reply.ETM?)
            && (reply.OK? <==> g'.ended in {ONGOING, WON})
            && (reply.OK? ==> reply.number == number && 0 <= reply.nB && 0 <= reply.nW)
            && (reply.OK? ==> reply.nB + reply.nW <= GUESS_SIZE && (reply.nB == GUESS_SIZE <==> g'.ended == WON))
  {
    TryFollowsRules(g, guess, number, t);
    ExactIsAgreeing(g.key, guess);
    ExactCommon(g.key, guess);
    hide TryStep, Common, Agreeing, Exact;
  }

  /** A new guess in time, exchanged without faults: the trial is recorded, and the client goes on with the next
      number and stays in step while the game goes on; it leaves the game exactly when the game has ended. */
  lemma ExchangeGoesOn(s: State, guess: string, t: Clock)
    requires Inv(s) && InStep(s) && IsField(guess) && |guess| == GUESS_SIZE && t.Valid(s.server.start)
    requires s.server.ended == ONGOING && !Used(s.server, guess) && !Late(s.server, t.guessed)
    ensures var s' := Exchange(s, guess, t);
            && |s'.server.trials| == |s.server.trials| + 1 && s'.server.trials[|s.server.trials|].guess == guess
            && !s'.client.stopped && s'.client.waiting.None?
            && (s'.server.ended == ONGOING ==> InStep(s'))
            && (s'.client.inGame <==> s'.server.ended == ONGOING)
            && (s'.server.ended in {ONGOING, WON} ==> s'.client.current == s.client.current + 1)
  {
    var g, number := s.server, s.client.current + 1;
    PlayedScore(g, guess, number, t);
    var (reply, g') := TryStep(g, guess, number, t);
    hide TryStep, Plays, Inv, ActiveOk;
    assert Exchange(s, guess, t).server == g';
  }

  /** When the answer was lost and the client tries the same guess again, it catches up with the server. */
  lemma ResendCatchesUp(s: State, guess: string, t: Clock)
    requires Inv(s) && Playing(s.client) && s.client.waiting.None? && t.Valid(s.server.start)
    requires s.server.ended == ONGOING && |s.server.trials| == s.client.current + 1
    requires s.server.trials[s.client.current].guess == guess && !Late(s.server, t.checked)
    ensures |guess| == |s.server.key| && Exchange(s, guess, t).server == s.server && InStep(Exchange(s, guess, t))
  {
    var g, number := s.server, s.client.current + 1;
    assert TrialOk(g.trials[number - 1]) && Scored(g.key, g.trials[number - 1]);
    ExactIsAgreeing(g.key, guess);
    ExactCommon(g.key, guess);
    assert Resent(g, guess, number);
    TryFollowsRules(g, guess, number, t);
    UnplayedStep(g, guess, number, t);
    var (reply, g') := TryStep(g, guess, number, t);
    assert reply == LastOk(g) && g' == g;
    hide TryStep;
  }
}
