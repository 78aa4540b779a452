/** A Mastermind game on the server: comparing a guess, ending, recording on disk, and answering a TRY. */
module Mastermind {
  import opened GameFile

  // ---------- comparing a guess with the key ----------

  /** How many colours two codes share, counting repetitions. */
  function Common(a: string, b: string): nat {
    |multiset(a) * multiset(b)|
  }

  function Exact(a: string, b: string): nat
    requires |a| == |b|
  {
    if a == [] then 0
    else Exact(a[..|a| - 1], b[..|b| - 1]) + if a[|a| - 1] == b[|b| - 1] then 1 else 0
  }

  /** The colours from position i on that are not marked. */
  function Unmarked(s: string, mask: seq<bool>, i: nat): multiset<char>
    requires |mask| == |s| && i <= |s|
    decreases |s| - i
  {
    if i == |s| then multiset{}
    else Unmarked(s, mask, i + 1) + if mask[i] then multiset{} else multiset{s[i]}
  }

  lemma {:induction false} UnmarkedHas(s: string, mask: seq<bool>, i: nat, c: char)
    requires |mask| == |s| && i <= |s|
    requires c in Unmarked(s, mask, i)
    ensures exists j :: i <= j < |s| && !mask[j] && s[j] == c
    decreases |s| - i
  {
    if mask[i] || s[i] != c {
      assert c in Unmarked(s, mask, i + 1);
      UnmarkedHas(s, mask, i + 1, c);
    } else {
      assert !mask[i] && s[i] == c;
    }
  }

  lemma {:induction false} MarkOne(s: string, mask: seq<bool>, i: nat, j: nat)
    requires |mask| == |s| && i <= |s| && j < |s| && !mask[j]
    ensures Unmarked(s, mask, i) == Unmarked(s, mask[j := true], i) + if i <= j then multiset{s[j]} else multiset{}
    decreases |s| - i
  {
    if i < |s| {
      MarkOne(s, mask, i + 1, j);
      var rest, rest' := Unmarked(s, mask, i + 1), Unmarked(s, mask[j := true], i + 1);
      if i == j {
        assert rest == rest' && Unmarked(s, mask, i) == rest + multiset{s[j]};
      } else if i < j {
        assert rest == rest' + multiset{s[j]} && mask[j := true][i] == mask[i];
      } else {
        assert rest == rest' && mask[j := true][i] == mask[i];
      }
    }
  }

  lemma {:induction false} NothingMarked(s: string, mask: seq<bool>, i: nat)
    requires |mask| == |s| && i <= |s| && forall j :: 0 <= j < |s| ==> !mask[j]
    ensures Unmarked(s, mask, i) == multiset(s[i..])
    decreases |s| - i
  {
    if i < |s| {
      NothingMarked(s, mask, i + 1);
      assert s[i..] == [s[i]] + s[i + 1..];
    }
  }

  /** Taking the same colour from both leaves one match less. */
  lemma TakeBoth(a: multiset<char>, b: multiset<char>, c: char)
    ensures |(a + multiset{c}) * (b + multiset{c})| == |a * b| + 1
  {
    assert (a + multiset{c}) * (b + multiset{c}) == a * b + multiset{c};
  }

  lemma TakeMissing(a: multiset<char>, b: multiset<char>, c: char)
    requires c !in a
    ensures a * (b + multiset{c}) == a * b
  {
  }

  /** How many matches are left between the unmarked places of the key and those of the guess from i on. */
  function MatchesLeft(key: string, secMask: seq<bool>, guess: string, gueMask: seq<bool>, i: nat): nat
    requires |secMask| == |key| && |gueMask| == |guess| && i <= |guess|
  {
    |Unmarked(key, secMask, 0) * Unmarked(guess, gueMask, i)|
  }

  lemma AlreadyMatched(key: string, secMask: seq<bool>, guess: string, gueMask: seq<bool>, i: nat)
    requires |secMask| == |key| && |gueMask| == |guess| && i < |guess| && gueMask[i]
    ensures MatchesLeft(key, secMask, guess, gueMask, i) == MatchesLeft(key, secMask, guess, gueMask, i + 1)
  {
    assert Unmarked(guess, gueMask, i) == Unmarked(guess, gueMask, i + 1);
  }

  lemma NoneLeft(key: string, secMask: seq<bool>, guess: string, gueMask: seq<bool>)
    requires |secMask| == |key| && |gueMask| == |guess|
    ensures MatchesLeft(key, secMask, guess, gueMask, |guess|) == 0
  {
    assert Unmarked(key, secMask, 0) * multiset{} == multiset{};
  }

  lemma AllLeft(key: string, secMask: seq<bool>, guess: string, gueMask: seq<bool>)
    requires |secMask| == |key| && |gueMask| == |guess|
    requires (forall j :: 0 <= j < |key| ==> !secMask[j]) && (forall j :: 0 <= j < |guess| ==> !gueMask[j])
    ensures MatchesLeft(key, secMask, guess, gueMask, 0) == Common(key, guess)
  {
    NothingMarked(key, secMask, 0);
    NothingMarked(guess, gueMask, 0);
    assert key[0..] == key && guess[0..] == guess;
  }

  /** A place where both codes agree is marked in both. */
  lemma MatchedInPlace(key: string, secMask: seq<bool>, guess: string, gueMask: seq<bool>, i: nat)
    requires |secMask| == |key| && |gueMask| == |guess| == |key| && i < |key| && !secMask[i] && !gueMask[i] &&
             key[i] == guess[i]
    ensures MatchesLeft(key, secMask, guess, gueMask, 0) ==
              MatchesLeft(key, secMask[i := true], guess, gueMask[i := true], 0) + 1
  {
    MarkOne(key, secMask, 0, i);
    MarkOne(guess, gueMask, 0, i);
    TakeBoth(Unmarked(key, secMask[i := true], 0), Unmarked(guess, gueMask[i := true], 0), key[i]);
  }

  /** An unmarked colour of the guess is matched with an unmarked place of the key, or with none if there is none. */
  lemma OneColour(key: string, secMask: seq<bool>, guess: string, gueMask: seq<bool>, i: nat, j: nat)
    requires |secMask| == |key| && |gueMask| == |guess| && i < |guess| && !gueMask[i]
    requires j < |key| ==> !secMask[j] && key[j] == guess[i]
    requires j >= |key| ==> forall k :: 0 <= k < |key| && key[k] == guess[i] ==> secMask[k]
    ensures j < |key| ==>
              MatchesLeft(key, secMask, guess, gueMask, i) ==
                MatchesLeft(key, secMask[j := true], guess, gueMask, i + 1) + 1
    ensures j >= |key| ==>
              MatchesLeft(key, secMask, guess, gueMask, i) == MatchesLeft(key, secMask, guess, gueMask, i + 1)
  {
    var rest := Unmarked(guess, gueMask, i + 1);
    assert Unmarked(guess, gueMask, i) == rest + multiset{guess[i]};
    hide Unmarked;
    if j < |key| {
      MarkOne(key, secMask, 0, j);
      TakeBoth(Unmarked(key, secMask[j := true], 0), rest, guess[i]);
    } else {
      if guess[i] in Unmarked(key, secMask, 0) {
        UnmarkedHas(key, secMask, 0, guess[i]);
      }
      TakeMissing(Unmarked(key, secMask, 0), rest, guess[i]);
    }
  }

  /** The first loop: positions where both codes agree are marked in both. */
  method MatchInPlace(key: string, guess: string) returns (nB: nat, secMask: seq<bool>, gueMask: seq<bool>)
    requires |key| == |guess|
    ensures nB == Exact(key, guess) && |secMask| == |key| && |gueMask| == |key|
    ensures nB + MatchesLeft(key, secMask, guess, gueMask, 0) == Common(key, guess)
  {
    hide MatchesLeft, Common;
    nB, secMask, gueMask := 0, seq(|key|, i => false), seq(|key|, i => false);
    AllLeft(key, secMask, guess, gueMask);
    for i := 0 to |key|
      invariant |secMask| == |key| && |gueMask| == |key| && nB == Exact(key[..i], guess[..i])
      invariant forall j :: i <= j < |key| ==> !secMask[j] && !gueMask[j]
      invariant nB + MatchesLeft(key, secMask, guess, gueMask, 0) == Common(key, guess)
    {
      assert key[..i + 1][..i] == key[..i] && guess[..i + 1][..i] == guess[..i];
      if key[i] == guess[i] {
        MatchedInPlace(key, secMask, guess, gueMask, i);
        nB := nB + 1;
        secMask, gueMask := secMask[i := true], gueMask[i := true];
      }
    }
    assert key[..|key|] == key && guess[..|key|] == guess;
  }

  /** The first unmarked position of a colour, the length if there is none. */
  method FindColour(key: string, secMask: seq<bool>, c: char) returns (j: nat)
    requires |secMask| == |key|
    ensures j < |key| ==> !secMask[j] && key[j] == c
    ensures j >= |key| ==> forall k :: 0 <= k < |key| && key[k] == c ==> secMask[k]
  {
    for k := 0 to |key|
      invariant forall l :: 0 <= l < k && key[l] == c ==> secMask[l]
    {
      if !secMask[k] && key[k] == c {
        return k;
      }
    }
    j := |key|;
  }

  /** nB counts the right colours in the right places, and nB + nW all colours the two codes share. */
  method Compare(key: string, guess: string) returns (nB: nat, nW: nat)
    requires |key| == |guess|
    ensures nB == Exact(key, guess) && nB + nW == Common(key, guess)
  {
    hide MatchesLeft, Common;
    var secMask, gueMask;
    nB, secMask, gueMask := MatchInPlace(key, guess);
    nW := 0;
    for i := 0 to |guess|
      invariant |secMask| == |key|
      invariant nB + nW + MatchesLeft(key, secMask, guess, gueMask, i) == Common(key, guess)
    {
      if !gueMask[i] {
        var j := FindColour(key, secMask, guess[i]);
        OneColour(key, secMask, guess, gueMask, i, j);
        if j < |key| {
          nW := nW + 1;
          secMask := secMask[j := true];
        }
      } else {
        AlreadyMatched(key, secMask, guess, gueMask, i);
      }
    }
    NoneLeft(key, secMask, guess, gueMask);
  }

  lemma {:induction false} ExactBounded(a: string, b: string)
    requires |a| == |b|
    ensures Exact(a, b) <= |a| && (Exact(a, b) == |a| <==> a == b)
  {
    if a != [] {
      ExactBounded(a[..|a| - 1], b[..|b| - 1]);
      assert a == a[..|a| - 1] + [a[|a| - 1]] && b == b[..|b| - 1] + [b[|b| - 1]];
    }
  }

  lemma CommonBounded(a: string, b: string)
    ensures Common(a, b) <= |a|
  {
    assert multiset(a) == multiset(a) * multiset(b) + (multiset(a) - multiset(b));
  }

  // ---------- the course of a game ----------

  function Min(a: nat, b: nat): nat { if a < b then a else b }

  /** How the game stands at a given time. */
  function Verdict(g: Game, now: nat): char {
    if g.trials != [] && g.trials[|g.trials| - 1].nB == GUESS_SIZE then WON
    else if |g.trials| >= MAX_TRIALS then LOST_TRIES
    else if g.start + g.duration < now then LOST_TIME
    else ONGOING
  }

  /** A game that is over at this time gets its reason and its end time, which the duration caps. */
  function EndedBy(g: Game, now: nat): Game {
    if g.ended != ONGOING || Verdict(g, now) == ONGOING then g
    else g.(ended := Verdict(g, now), end := Min(now, g.start + g.duration))
  }

  lemma SubsetSize(a: multiset<char>, b: multiset<char>)
    requires a <= b
    ensures |a| <= |b|
  {
    assert b == a + (b - a);
  }

  lemma {:induction false} ExactCommon(a: string, b: string)
    requires |a| == |b|
    ensures Exact(a, b) <= Common(a, b) <= |a|
  {
    CommonBounded(a, b);
    if a != [] {
      var n := |a| - 1;
      ExactCommon(a[..n], b[..n]);
      var x, y := multiset(a[..n]), multiset(b[..n]);
      assert a == a[..n] + [a[n]] && b == b[..n] + [b[n]];
      assert x * y <= multiset(a) * multiset(b);
      if a[n] == b[n] {
        TakeBoth(x, y, a[n]);
        assert multiset(a) * multiset(b) == (x + multiset{a[n]}) * (y + multiset{a[n]});
      } else {
        SubsetSize(x * y, multiset(a) * multiset(b));
      }
    }
  }

  /** The trial as it is written: how far the guess agrees with the key, and the time elapsed, which the duration
      caps. */
  function TrialOf(g: Game, play: string, now: nat): Trial
    requires |play| == |g.key| && now >= g.start
  {
    ExactCommon(g.key, play);
    Trial(play, Exact(g.key, play), Common(g.key, play) - Exact(g.key, play), Min(now - g.start, g.duration))
  }

  /** The clock readings of one request, in order. */
  datatype Clock = Clock(found: nat, checked: nat, guessed: nat, played: nat, written: nat, done: nat) {
    predicate Valid(start: nat) { start <= found <= checked <= guessed <= played <= written <= done < SIZE_MAX }
  }

  function Guessed(g: Game, play: string, t: Clock): Game
    requires |play| == |g.key| && t.Valid(g.start)
  {
    var g1 := EndedBy(g, t.guessed);
    if g1.ended != ONGOING then g1
    else EndedBy(g1.(trials := g1.trials + [TrialOf(g1, play, t.written)]), t.done)
  }

  /** The number of the first trial with the same guess, one past the maximum if there is none. */
  function Duplicate(trials: seq<Trial>, play: string, i: nat): nat
    requires i <= |trials|
    decreases |trials| - i
  {
    if i == |trials| then MAX_TRIALS + 1 else if trials[i].guess == play then i + 1 else Duplicate(trials, play, i + 1)
  }

  lemma {:induction false} DuplicateFinds(trials: seq<Trial>, play: string, i: nat)
    requires i <= |trials| <= MAX_TRIALS
    ensures var d := Duplicate(trials, play, i);
            if exists k :: i <= k < |trials| && trials[k].guess == play
            then i < d <= |trials| && trials[d - 1].guess == play &&
                 forall k :: i <= k < d - 1 ==> trials[k].guess != play
            else d == MAX_TRIALS + 1
    decreases |trials| - i
  {
    if i < |trials| && trials[i].guess != play {
      DuplicateFinds(trials, play, i + 1);
    }
  }

  // ---------- answering a TRY ----------

  datatype Reply = NOK | ETM(key: string) | ENT(key: string) | INV | DUP | OK(number: nat, nB: int, nW: int)

  /** A game that has not ended is kept in the active file: fewer than the allowed trials, none of them right. */
  predicate ActiveOk(g: Game) {
    && GameOk(g) && (g.ended == ONGOING ==> |g.trials| < MAX_TRIALS)
    && (g.ended == ONGOING && g.trials != [] ==> g.trials[|g.trials| - 1].nB != GUESS_SIZE)
  }

  function LastOk(g: Game): Reply
    requires g.trials != []
  {
    OK(|g.trials|, g.trials[|g.trials| - 1].nB, g.trials[|g.trials| - 1].nW)
  }

  /** The answer once the game is known to be under way: a resend of the last trial gets its answer again. */
  function Played(g: Game, play: string, number: nat, t: Clock): (Reply, Game)
    requires ActiveOk(g) && g.ended == ONGOING && |play| == |g.key| && t.Valid(g.start)
  {
    var n, d := |g.trials|, Duplicate(g.trials, play, 0);
    if number != n + 1 then
      DuplicateFinds(g.trials, play, 0);
      if number == n && d == n then (LastOk(g), g) else (INV, g)
    else if d != MAX_TRIALS + 1 then (DUP, g)
    else
      var g' := Guessed(g, play, t);
      if g'.ended == LOST_TIME then (ETM(g'.key), g')
      else if g'.ended == LOST_TRIES then (ENT(g'.key), g')
      else (LastOk(g'), g')
  }

  /** The answer to a TRY and the game after it. A game that has ended is no longer found. */
  function TryStep(g: Game, play: string, number: nat, t: Clock): (r: (Reply, Game))
    requires ActiveOk(g) && |play| == |g.key| && t.Valid(g.start)
  {
    if g.ended != ONGOING then (NOK, g) else
    var g1 := EndedBy(EndedBy(g, t.found), t.checked);
    if g1.ended == LOST_TIME then (ETM(g1.key), g1) else Played(g1, play, number, t)
  }

  ghost predicate SameGame(g: Game, g': Game) {
    g'.key == g.key && g'.start == g.start && g'.duration == g.duration && g'.plid == g.plid && g'.mode == g.mode
  }

  lemma EndedKeeps(g: Game, now: nat)
    requires GameOk(g) && g.start <= now < SIZE_MAX
    ensures GameOk(EndedBy(g, now)) && SameGame(g, EndedBy(g, now)) && EndedBy(g, now).trials == g.trials
    ensures g.ended != ONGOING ==> EndedBy(g, now) == g
    ensures EndedBy(g, now).ended == ONGOING ==> EndedBy(g, now) == g && ActiveOk(g)
    ensures ActiveOk(g) ==> EndedBy(g, now).ended in {g.ended, LOST_TIME}
  {
  }

  /** An active game that is not won stays well-formed with one more trial. */
  lemma RecordKeeps(g: Game, play: string, now: nat)
    requires ActiveOk(g) && g.ended == ONGOING && IsField(play) && |play| == |g.key| && g.start <= now
    ensures TrialOk(TrialOf(g, play, now)) && GameOk(g.(trials := g.trials + [TrialOf(g, play, now)]))
  {
    ExactCommon(g.key, play);
    assert TrialOk(TrialOf(g, play, now));
  }

  lemma GuessedKeeps(g: Game, play: string, t: Clock)
    requires ActiveOk(g) && g.ended == ONGOING && IsField(play) && |play| == |g.key| && t.Valid(g.start)
    ensures var g' := Guessed(g, play, t);
            && ActiveOk(g') && SameGame(g, g')
            && (if EndedBy(g, t.guessed).ended == ONGOING then g'.trials == g.trials + [TrialOf(g, play, t.written)]
                else g' == EndedBy(g, t.guessed) && g'.ended == LOST_TIME && g'.trials == g.trials)
  {
    EndedKeeps(g, t.guessed);
    hide GameOk, TrialOf, EndedBy;
    if EndedBy(g, t.guessed).ended == ONGOING {
      RecordKeeps(g, play, t.written);
      EndedKeeps(g.(trials := g.trials + [TrialOf(g, play, t.written)]), t.done);
    }
  }

  /** A TRY records at most its own guess, and leaves a well-formed game. */
  lemma TryKeeps(g: Game, play: string, number: nat, t: Clock)
    requires ActiveOk(g) && IsField(play) && |play| == |g.key| && t.Valid(g.start)
    ensures var g' := TryStep(g, play, number, t).1;
            && ActiveOk(g') && SameGame(g, g')
            && (g'.trials == g.trials || g'.trials == g.trials + [TrialOf(g, play, t.written)])
            && (g'.trials != g.trials ==>
                g.ended == ONGOING && number == |g.trials| + 1 && Duplicate(g.trials, play, 0) == MAX_TRIALS + 1)
            && (g.ended != ONGOING ==> g' == g)
  {
    EndedKeeps(g, t.found);
    EndedKeeps(EndedBy(g, t.found), t.checked);
    hide GameOk, TrialOf, EndedBy, Guessed, Verdict;
    if g.ended == ONGOING && EndedBy(EndedBy(g, t.found), t.checked).ended == ONGOING {
      GuessedKeeps(g, play, t);
    }
  }

  // ---------- the rules of a TRY ----------

  /** The places where two codes agree. */
  ghost function Agreeing(key: string, guess: string): set<nat>
    requires |key| == |guess|
  {
    set i: nat | i < |key| && key[i] == guess[i]
  }

  lemma {:induction false} ExactIsAgreeing(key: string, guess: string)
    requires |key| == |guess|
    ensures Exact(key, guess) == |Agreeing(key, guess)|
  {
    if key == [] {
      assert Agreeing(key, guess) == {};
    } else {
      var n := |key| - 1;
      ExactIsAgreeing(key[..n], guess[..n]);
      assert Agreeing(key, guess) == Agreeing(key[..n], guess[..n]) + if key[n] == guess[n] then {n as nat} else {};
    }
  }

  /** The trial tells how many places of the key the guess has right, and with nW how many colours they share. */
  ghost predicate Scored(key: string, x: Trial) {
    |x.guess| == |key| && x.nB == |Agreeing(key, x.guess)| && x.nB + x.nW == Common(key, x.guess)
  }

  predicate Late(g: Game, now: nat) { g.start + g.duration < now }

  ghost predicate Used(g: Game, play: string) {
    exists i :: 0 <= i < |g.trials| && g.trials[i].guess == play
  }

  /** The last trial, sent again, and not a repetition of an earlier one. */
  ghost predicate Resent(g: Game, play: string, number: nat) {
    && number == |g.trials| > 0 && g.trials[number - 1].guess == play
    && forall i :: 0 <= i < number - 1 ==> g.trials[i].guess != play
  }

  /** A new guess under the expected number, in an active game whose time is not up. */
  ghost predicate Plays(g: Game, play: string, number: nat, t: Clock) {
    g.ended == ONGOING && number == |g.trials| + 1 && !Used(g, play) && !Late(g, t.guessed)
  }

  /** A trial is recorded exactly if the guess is played: one, at the end, with that guess and its score. */
  ghost predicate Records(g: Game, play: string, number: nat, t: Clock, g': Game)
    requires t.Valid(g.start)
  {
    && SameGame(g, g')
    && (!Plays(g, play, number, t) ==> g'.trials == g.trials)
    && (Plays(g, play, number, t) ==>
          && |g'.trials| == number && g'.trials[..number - 1] == g.trials
          && var x := g'.trials[number - 1];
          x.guess == play && Scored(g.key, x) && x.when == Min(t.written - g.start, g.duration))
  }

  /** The game ends by the trial that is right, else by the last one allowed, else by the clock. */
  ghost predicate Ends(g: Game, play: string, number: nat, t: Clock, g': Game)
    requires t.Valid(g.start) && Records(g, play, number, t, g')
  {
    var plays := Plays(g, play, number, t);
    var won := plays && g'.trials[number - 1].nB == GUESS_SIZE;
    var tried := plays && !won && number == MAX_TRIALS;
    var timeUp := g.ended == ONGOING && !won && !tried &&
                  (Late(g, t.checked) || (number == |g.trials| + 1 && !Used(g, play) && Late(g, t.done)));
    && (g'.ended == if won then WON else if tried then LOST_TRIES else if timeUp then LOST_TIME else g.ended)
    && (g'.end == if won || tried then Min(t.done, g.start + g.duration)
                  else if timeUp then g.start + g.duration else g.end)
  }

  /** Which answer is given when. */
  ghost predicate Answered(g: Game, play: string, number: nat, t: Clock, reply: Reply, g': Game)
    requires t.Valid(g.start) && Records(g, play, number, t, g')
  {
    var asked := g.ended == ONGOING && !Late(g, t.checked);
    var ok := (asked && Resent(g, play, number)) || (Plays(g, play, number, t) && g'.ended in {ONGOING, WON});
    && (reply == NOK <==> g.ended != ONGOING)
    && (reply == INV <==> asked && number != |g.trials| + 1 && !Resent(g, play, number))
    && (reply == DUP <==> asked && number == |g.trials| + 1 && Used(g, play))
    && (reply.ENT? <==> g.ended == ONGOING && g'.ended == LOST_TRIES)
    && (reply.ETM? <==> g.ended == ONGOING && g'.ended == LOST_TIME)
    && (reply.ENT? || reply.ETM? ==> reply.key == g.key)
    && (reply.OK? <==> ok)
    && (ok ==>
          number == |g'.trials| > 0 && reply == OK(number, g'.trials[number - 1].nB, g'.trials[number - 1].nW))
  }

  /** What a TRY does and answers, in terms of the game, the number and the clock alone. */
  ghost predicate Rules(g: Game, play: string, number: nat, t: Clock, reply: Reply, g': Game)
    requires t.Valid(g.start)
  {
    Records(g, play, number, t, g') && Ends(g, play, number, t, g') && Answered(g, play, number, t, reply, g')
  }

  lemma NotUsed(g: Game, play: string)
    requires |g.trials| <= MAX_TRIALS
    ensures Used(g, play) <==> Duplicate(g.trials, play, 0) != MAX_TRIALS + 1
    ensures forall number: nat ::
              Resent(g, play, number) <==> number == |g.trials| && number == Duplicate(g.trials, play, 0)
  {
    DuplicateFinds(g.trials, play, 0);
  }

  lemma BeforeTrial(g: Game, play: string, number: nat, t: Clock)
    requires ActiveOk(g) && |play| == |g.key| && t.Valid(g.start) && g.ended == ONGOING
    ensures Late(g, t.checked) ==>
              TryStep(g, play, number, t) == (ETM(g.key), g.(ended := LOST_TIME, end := g.start + g.duration))
    ensures !Late(g, t.checked) ==> TryStep(g, play, number, t) == Played(g, play, number, t)
  {
    hide Played;
  }

  /** The game with the trial recorded, which may end it. */
  lemma WithTrial(g: Game, play: string, number: nat, t: Clock)
    requires ActiveOk(g) && |play| == |g.key| && t.Valid(g.start) && Plays(g, play, number, t)
    ensures Guessed(g, play, t) == EndedBy(g.(trials := g.trials + [TrialOf(g, play, t.written)]), t.done)
    ensures TryStep(g, play, number, t).1 == Guessed(g, play, t)
    ensures var g' := Guessed(g, play, t);
            |g'.trials| > 0 && TryStep(g, play, number, t).0 ==
              if g'.ended == LOST_TIME then ETM(g.key) else if g'.ended == LOST_TRIES then ENT(g.key) else LastOk(g')
  {
    NotUsed(g, play);
    BeforeTrial(g, play, number, t);
    hide TrialOf;
  }

  lemma ScoreIs(g: Game, play: string, now: nat)
    requires |play| == |g.key| && now >= g.start
    ensures var x := TrialOf(g, play, now);
            x.guess == play && Scored(g.key, x) && x.when == Min(now - g.start, g.duration)
  {
    ExactIsAgreeing(g.key, play);
    ExactCommon(g.key, play);
  }

  lemma PlayedRecords(g: Game, play: string, number: nat, t: Clock)
    requires ActiveOk(g) && |play| == |g.key| && t.Valid(g.start) && Plays(g, play, number, t)
    ensures Records(g, play, number, t, TryStep(g, play, number, t).1)
  {
    WithTrial(g, play, number, t);
    ScoreIs(g, play, t.written);
    hide TryStep, TrialOf, Scored, Guessed, ActiveOk, Plays;
    var g' := TryStep(g, play, number, t).1;
    assert number == |g.trials| + 1;
    assert g'.trials == g.trials + [TrialOf(g, play, t.written)];
    assert g'.trials[..number - 1] == g.trials;
  }

  lemma PlayedEnds(g: Game, play: string, number: nat, t: Clock)
    requires ActiveOk(g) && |play| == |g.key| && t.Valid(g.start) && Plays(g, play, number, t)
    requires Records(g, play, number, t, TryStep(g, play, number, t).1)
    ensures Ends(g, play, number, t, TryStep(g, play, number, t).1)
  {
    WithTrial(g, play, number, t);
    hide TryStep, TrialOf, Records, Guessed;
    assert Plays(g, play, number, t) && number == |g.trials| + 1;
  }

  lemma PlayedAnswered(g: Game, play: string, number: nat, t: Clock)
    requires ActiveOk(g) && |play| == |g.key| && t.Valid(g.start) && Plays(g, play, number, t)
    requires Records(g, play, number, t, TryStep(g, play, number, t).1)
    ensures Answered(g, play, number, t, TryStep(g, play, number, t).0, TryStep(g, play, number, t).1)
  {
    WithTrial(g, play, number, t);
    hide TryStep, TrialOf, Guessed, Scored;
    assert Plays(g, play, number, t) && number == |g.trials| + 1;
  }

  lemma PlayedFollows(g: Game, play: string, number: nat, t: Clock)
    requires ActiveOk(g) && |play| == |g.key| && t.Valid(g.start) && Plays(g, play, number, t)
    ensures Rules(g, play, number, t, TryStep(g, play, number, t).0, TryStep(g, play, number, t).1)
  {
    hide TryStep, Records, Ends, Answered, Plays, ActiveOk;
    PlayedRecords(g, play, number, t);
    PlayedEnds(g, play, number, t);
    PlayedAnswered(g, play, number, t);
  }

  lemma UnplayedStep(g: Game, play: string, number: nat, t: Clock)
    requires ActiveOk(g) && |play| == |g.key| && t.Valid(g.start) && g.ended == ONGOING
    requires !Late(g, t.checked) && !Plays(g, play, number, t)
    ensures TryStep(g, play, number, t) ==
              if number != |g.trials| + 1 then (if Resent(g, play, number) then LastOk(g) else INV, g)
              else if Used(g, play) then (DUP, g)
              else (ETM(g.key), g.(ended := LOST_TIME, end := g.start + g.duration))
  {
    NotUsed(g, play);
    BeforeTrial(g, play, number, t);
    hide TrialOf, Resent, Used;
  }

  lemma UnplayedFollows(g: Game, play: string, number: nat, t: Clock)
    requires ActiveOk(g) && |play| == |g.key| && t.Valid(g.start) && !Plays(g, play, number, t)
    ensures Rules(g, play, number, t, TryStep(g, play, number, t).0, TryStep(g, play, number, t).1)
  {
    if g.ended == ONGOING {
      if Late(g, t.checked) {
        BeforeTrial(g, play, number, t);
      } else {
        UnplayedStep(g, play, number, t);
      }
    }
    hide TryStep, Used;
  }

  /** The step follows the rules. */
  lemma TryFollowsRules(g: Game, play: string, number: nat, t: Clock)
    requires ActiveOk(g) && |play| == |g.key| && t.Valid(g.start)
    ensures Rules(g, play, number, t, TryStep(g, play, number, t).0, TryStep(g, play, number, t).1)
  {
    hide *;
    if Plays(g, play, number, t) {
      PlayedFollows(g, play, number, t);
    } else {
      UnplayedFollows(g, play, number, t);
    }
  }
}
