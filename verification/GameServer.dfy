/** The game object of the server and the file it appends to, and the handling of one TRY request. */
module GameServer {
  import opened Wrappers
  import opened GameFile
  import opened Mastermind

  // ---------- appending to a printed game ----------

  lemma {:induction false} LinesAppend(trials: seq<Trial>, t: Trial, k: nat)
    requires TrialsOk(trials) && |trials| < MAX_TRIALS && TrialOk(t) && k <= |trials|
    ensures Lines(trials + [t], k) == Lines(trials, k) + Line(|trials|, t)
    decreases |trials| - k
  {
    hide Line;
    var more, last := trials + [t], Line(|trials|, t);
    if k == |trials| {
      assert Lines(more, k) == Line(k, t) + Lines(more, k + 1);
    } else {
      LinesAppend(trials, t, k + 1);
      var a, b := Line(k, trials[k]), Lines(trials, k + 1);
      assert more[k] == trials[k] && Lines(more, k) == a + (b + last);
      assert a + (b + last) == a + b + last;
    }
  }

  lemma Regroup(a: string, b: string, c: string)
    ensures a + (b + c) + "" == a + b + "" + c
  {
  }

  /** Writing a trial at the end of the file of an active game prints the game with that trial. */
  lemma PrintTrial(g: Game, t: Trial)
    requires GameOk(g) && g.ended == ONGOING && |g.trials| < MAX_TRIALS && TrialOk(t)
    ensures GameOk(g.(trials := g.trials + [t]))
    ensures Print(g.(trials := g.trials + [t])) == Print(g) + Line(|g.trials|, t)
  {
    LinesAppend(g.trials, t, 0);
    var g' := g.(trials := g.trials + [t]);
    assert Header(g') == Header(g) && Ending(g') == "" && Ending(g) == "";
    hide Header, Lines, Ending, Line, TrialOk, IsField;
    Regroup(Header(g), Lines(g.trials, 0), Line(|g.trials|, t));
  }

  /** Writing the reason and the time at the end of the file prints the ended game. */
  lemma PrintEnding(g: Game, reason: char, end: nat)
    requires GameOk(g) && g.ended == ONGOING && GameOk(g.(ended := reason, end := end)) && reason != ONGOING
    ensures Print(g.(ended := reason, end := end)) == Print(g) + Ending(g.(ended := reason, end := end))
  {
    var g' := g.(ended := reason, end := end);
    assert Header(g') == Header(g) && Ending(g) == "";
    hide Header, Lines, Ending, GameOk;
    assert Header(g) + Lines(g.trials, 0) + "" == Header(g) + Lines(g.trials, 0);
  }

  lemma TrialIs(g: Game, play: string, now: nat, nB: nat, nW: nat)
    requires |play| == |g.key| && now >= g.start && nB == Exact(g.key, play) && nB + nW == Common(g.key, play)
    ensures TrialOf(g, play, now) ==
              Trial(play, nB, nW, if now - g.start < g.duration then now - g.start else g.duration)
  {
  }

  /** The trial as it stays in memory: its time is read before the line is written, and is not capped. */
  function Noted(g: Game, play: string, t: Clock): Trial
    requires |play| == |g.key| && t.Valid(g.start)
  {
    TrialOf(g, play, t.written).(when := t.played - g.start)
  }

  /** The clock shows the same second when the time is noted and when it is written, and the game is not past its
      end; or the time is noted in the very last second of the game. */
  predicate SameReading(g: Game, t: Clock) {
    (t.played == t.written && t.written <= g.start + g.duration) || t.played == g.start + g.duration
  }

  lemma NotedAgrees(g: Game, play: string, t: Clock)
    requires |play| == |g.key| && t.Valid(g.start)
    ensures Noted(g, play, t) == TrialOf(g, play, t.written) <==> SameReading(g, t)
  {
  }

  lemma LastAgrees(a: seq<Trial>, b: seq<Trial>, x: Trial, y: Trial)
    requires |a| == |b|
    ensures a + [x] == b + [y] <==> a == b && x == y
  {
    if a + [x] == b + [y] {
      assert (a + [x])[..|a|] == a && (b + [y])[..|b|] == b;
      assert (a + [x])[|a|] == x && (b + [y])[|b|] == y;
    }
  }

  /** A guess that is recorded is parsed back from disk as it was noted in memory exactly if the readings agree. */
  lemma WhenReread(g: Game, play: string, t: Clock)
    requires ActiveOk(g) && g.ended == ONGOING && IsField(play) && |play| == |g.key| && t.Valid(g.start)
    requires EndedBy(g, t.guessed).ended == ONGOING
    ensures var g' := Guessed(g, play, t);
            && GameOk(g') && Parse(Print(g')).Ok? && |Parse(Print(g')).value.trials| == |g.trials| + 1
            && (Parse(Print(g')).value.trials[|g.trials|] == Noted(g, play, t) <==> SameReading(g, t))
  {
    GuessedKeeps(g, play, t);
    hide Guessed, Parse, Print, EndedBy, Exact, Common, TrialOk, IsField;
    ParsePrint(Guessed(g, play, t));
  }

  lemma OneSecondLate(g: Game, play: string)
    requires ActiveOk(g) && IsField(play) && |play| == |g.key|
    requires g.ended == ONGOING && g.trials == [] && g.start == 0 && g.duration == 600
    ensures var t := Clock(1, 1, 1, 1, 2, 2);
            var g' := Guessed(g, play, t);
            && GameOk(g') && Parse(Print(g')).Ok? && |Parse(Print(g')).value.trials| == 1
            && Parse(Print(g')).value.trials[0].when == 2 && Noted(g, play, t).when == 1
  {
    var t := Clock(1, 1, 1, 1, 2, 2);
    assert EndedBy(g, t.guessed) == g;
    hide Guessed, Parse, Print, Exact, Common, IsField, EndedBy;
    GuessedKeeps(g, play, t);
    ParsePrint(Guessed(g, play, t));
  }

  /** A second that passes between noting and writing: the file has one time, the memory another. */
  lemma WhenDiffers()
    ensures var g, t := Game("123456", 'P', "RGBY", 600, 0, [], ONGOING, 0), Clock(1, 1, 1, 1, 2, 2);
            var g' := Guessed(g, "RRRR", t);
            && ActiveOk(g) && GameOk(g') && Parse(Print(g')).Ok? && |Parse(Print(g')).value.trials| == 1
            && Parse(Print(g')).value.trials[0].when == 2 && Noted(g, "RRRR", t).when == 1
  {
    assert ActiveOk(Game("123456", 'P', "RGBY", 600, 0, [], ONGOING, 0)) && IsField("RRRR");
    hide *;
    OneSecondLate(Game("123456", 'P', "RGBY", 600, 0, [], ONGOING, 0), "RRRR");
  }

  class LiveGame {
    var plid: string
    var mode: char
    var key: string
    var duration: nat
    var start: nat
    var end: nat
    var ended: char
    /** As kept in memory: `when` is read from the clock before the line is written, the line has a later reading. */
    var trials: seq<Trial>
    /** What has been appended to the file of the game, and the trials as they stand there. */
    var file: string
    ghost var written: seq<Trial>

    ghost function Disk(): Game
      reads this
    {
      Game(plid, mode, key, duration, start, written, ended, if ended == ONGOING then 0 else end)
    }

    ghost predicate Valid()
      reads this
    {
      && ActiveOk(Disk()) && file == Print(Disk())
      && |written| == |trials| && forall i :: 0 <= i < |trials| ==> trials[i] == written[i].(when := trials[i].when)
    }

    /** Parsing the file gives the trials as they stand in memory. */
    ghost predicate Reread()
      reads this
    {
      Parse(file).Ok? && Parse(file).value.trials == trials
    }

    lemma RereadTrials()
      requires Valid()
      ensures Reread() <==> trials == written
    {
      hide Print, Parse;
      ParsePrint(Disk());
    }

    /** A new game, with its header written to disk. */
    constructor Create(plid: string, mode: char, key: string, duration: nat, now: nat)
      requires GameOk(Game(plid, mode, key, duration, now, [], ONGOING, 0))
      ensures Valid() && Disk() == Game(plid, mode, key, duration, now, [], ONGOING, 0) && Reread()
    {
      this.plid, this.mode, this.key, this.duration, start, end, ended := plid, mode, key, duration, now, now, ONGOING;
      trials, written := [], [];
      file := Header(Game(plid, mode, key, duration, now, [], ONGOING, 0));
      new;
      RereadTrials();
    }

    /** The game that was parsed from the file. */
    constructor Load(g: Game, file: string)
      requires ActiveOk(g) && file == Print(g)
      ensures Valid() && Disk() == g && Reread()
    {
      plid, mode, key, duration, start, end, ended := g.plid, g.mode, g.key, g.duration, g.start, g.end, g.ended;
      trials, written := g.trials, g.trials;
      this.file := file;
      new;
      RereadTrials();
    }

    function EndLine(): (line: string)
      requires ended != ONGOING
      reads this
      ensures line == Ending(Disk())
    {
      Field([ended], SEP) + Field(Digits(end), EOM)
    }

    /** Sets the end time, which the duration caps, and writes the reason and the time at the end of the file. */
    method Terminate(ghost before: Game, now: nat)
      requires GameOk(before) && before.ended == ONGOING && file == Print(before) && start <= now < SIZE_MAX
      requires ended in {WON, LOST_TIME, LOST_TRIES, QUIT} &&
               before == Game(plid, mode, key, duration, start, written, ONGOING, 0)
      modifies this`end, this`file
      ensures Disk() == before.(ended := ended, end := Min(now, start + duration)) && GameOk(Disk()) &&
              file == Print(Disk())
    {
      hide Print, Ending;
      end := now;
      if end > start + duration {
        end := start + duration;
      }
      assert Disk() == before.(ended := ended, end := end) && GameOk(Disk());
      PrintEnding(before, ended, end);
      file := file + EndLine();
    }

    /** How the game stands; when it is found to be over, this is written down with the end time. */
    method HasEnded(now: nat) returns (result: char)
      requires GameOk(Disk()) && file == Print(Disk()) && start <= now < SIZE_MAX
      requires |written| == |trials|
      requires forall i :: 0 <= i < |trials| ==> trials[i] == written[i].(when := trials[i].when)
      modifies this`ended, this`end, this`file
      ensures Valid() && Disk() == EndedBy(old(Disk()), now) && result == ended
    {
      ghost var before := Disk();
      if ended != ONGOING {
        return ended;
      }
      if |trials| > 0 && trials[|trials| - 1].nB == GUESS_SIZE {
        ended := WON;
      } else if |trials| >= MAX_TRIALS {
        ended := LOST_TRIES;
      } else if start + duration < now {
        ended := LOST_TIME;
      }
      if ended == ONGOING {
        return ended;
      }
      Terminate(before, now);
      result := ended;
    }

    /** Compares the guess with the key, appends its line to the file and notes the trial. */
    method Record(play: string, t: Clock)
      requires Valid() && ended == ONGOING && IsField(play) && |play| == |key| && t.Valid(start)
      modifies this`file, this`trials, this`written
      ensures trials == old(trials) + [Noted(old(Disk()), play, t)]
      ensures Disk() == old(Disk()).(trials := old(written) + [TrialOf(old(Disk()), play, t.written)])
      ensures GameOk(Disk()) && file == Print(Disk())
    {
      hide Print, Line, Common, Exact;
      ghost var g := Disk();
      var nB, nW := Compare(key, play);
      RecordKeeps(g, play, t.written);
      var line := Trial(play, nB, nW, if t.written - start < duration then t.written - start else duration);
      TrialIs(g, play, t.written, nB, nW);
      PrintTrial(g, line);
      file := file + Line(|trials|, line);
      trials, written := trials + [line.(when := t.played - start)], written + [line];
    }

    /** Plays a guess, without a check for repetitions, and writes it down. */
    method Guess(play: string, t: Clock) returns (result: char)
      requires Valid() && IsField(play) && |play| == |key| && t.Valid(start)
      modifies this
      ensures Valid() && Disk() == Guessed(old(Disk()), play, t) && result == ended
      ensures var recorded := EndedBy(old(Disk()), t.guessed).ended == ONGOING;
              && trials == (if recorded then old(trials) + [Noted(old(Disk()), play, t)] else old(trials))
              && (Reread() <==> old(Reread()) && (recorded ==> SameReading(old(Disk()), t)))
    {
      RereadTrials();
      hide Print, TrialOf, Noted, SameReading, Reread;
      result := HasEnded(t.guessed);
      if result != ONGOING {
        RereadTrials();
        return;
      }
      NotedAgrees(Disk(), play, t);
      LastAgrees(trials, written, Noted(Disk(), play, t), TrialOf(Disk(), play, t.written));
      Record(play, t);
      result := HasEnded(t.done);
      RereadTrials();
    }

    /** Ends the game on the player's wish; ending it twice is ignored, ending a finished game is an error. */
    method Quit(now: nat) returns (ok: bool)
      requires Valid() && start <= now < SIZE_MAX
      modifies this`ended, this`end, this`file
      ensures Valid() && ok == (old(ended) == ONGOING || old(ended) == QUIT)
      ensures Disk() ==
                if old(ended) == ONGOING then old(Disk()).(ended := QUIT, end := Min(now, start + duration))
                else old(Disk())
      ensures Reread() <==> old(Reread())
    {
      RereadTrials();
      hide Reread;
      if ended == QUIT {
        return true;
      }
      if ended != ONGOING {
        return false;
      }
      ghost var before := Disk();
      ended := QUIT;
      Terminate(before, now);
      RereadTrials();
      ok := true;
    }

    /** The number of the first trial with this guess, one past the maximum if there is none. */
    method IsDuplicate(play: string) returns (at: nat)
      requires Valid()
      ensures at == Duplicate(written, play, 0)
    {
      for i := 0 to |trials|
        invariant Duplicate(written, play, 0) == Duplicate(written, play, i)
      {
        if trials[i].guess == play {
          return i + 1;
        }
      }
      at := MAX_TRIALS + 1;
    }

    method LastTrial() returns (reply: Reply)
      requires Valid() && trials != []
      ensures reply == LastOk(Disk())
    {
      reply := OK(|trials|, trials[|trials| - 1].nB, trials[|trials| - 1].nW);
    }
  }

  /** The active file holds the printed game until the game ends. */
  ghost predicate OnDisk(g: Game, file: Option<string>) {
    GameOk(g) && file == if g.ended == ONGOING then Some(Print(g)) else None
  }

  /** A game that ends while it is played is moved away, as it is printed then. */
  ghost predicate Archived(g: Game, g': Game, archived: Option<string>) {
    GameOk(g') && archived == if g.ended == ONGOING && g'.ended != ONGOING then Some(Print(g')) else None
  }

  /** From the time check on. */
  method Answer(game: LiveGame, play: string, number: nat, t: Clock, checked: char) returns (reply: Reply)
    requires game.Valid() && IsField(play) && |play| == GUESS_SIZE && t.Valid(game.start)
    requires checked == game.ended && (checked == ONGOING || checked == LOST_TIME)
    modifies game
    ensures game.Valid()
    ensures checked == LOST_TIME ==> reply == ETM(old(game.key)) && game.Disk() == old(game.Disk())
    ensures checked == ONGOING ==> (reply, game.Disk()) == Played(old(game.Disk()), play, number, t)
  {
    if checked == LOST_TIME {
      return ETM(game.key);
    }
    var duplicateAt := game.IsDuplicate(play);
    DuplicateFinds(game.written, play, 0);
    if number != |game.trials| + 1 {
      if number == |game.trials| && duplicateAt == |game.trials| {
        reply := game.LastTrial();
      } else {
        reply := INV;
      }
      return;
    }
    if duplicateAt != MAX_TRIALS + 1 {
      return DUP;
    }
    var result := game.Guess(play, t);
    if result == LOST_TIME {
      reply := ETM(game.key);
    } else if result == LOST_TRIES {
      reply := ENT(game.key);
    } else {
      reply := game.LastTrial();
    }
  }

  /** A request to a game that was found active. */
  method Requested(game: LiveGame, play: string, number: nat, t: Clock, ghost g: Game) returns (reply: Reply)
    requires game.Valid() && game.Disk() == g && g.ended == ONGOING
    requires IsField(play) && |play| == GUESS_SIZE == |g.key| && t.Valid(g.start)
    modifies game
    ensures game.Valid() && (reply, game.Disk()) == TryStep(g, play, number, t)
  {
    var found := game.HasEnded(t.found);
    var checked := game.HasEnded(t.checked);
    reply := Answer(game, play, number, t, checked);
  }

  /** The file that holds the game after a request that found it active. */
  function FileOf(active: Option<string>, archived: Option<string>): string {
    if active.Some? then active.value else if archived.Some? then archived.value else ""
  }

  lemma FileParses(g: Game, g': Game, active: Option<string>, archived: Option<string>)
    requires g.ended == ONGOING && OnDisk(g', active) && Archived(g, g', archived)
    ensures Parse(FileOf(active, archived)) == Ok(g')
  {
    ParsePrint(g');
  }

  /** One TRY request: the game is read from its file, played, and written back; a game that ends is moved away.
      The file that is left, parsed again, is the game that the rules call for. */
  method DoTry(file: Option<string>, play: string, number: nat, t: Clock, ghost g: Game)
    returns (reply: Reply, file': Option<string>, archived: Option<string>)
    requires ActiveOk(g) && IsField(play) && |play| == GUESS_SIZE == |g.key| && t.Valid(g.start)
    requires OnDisk(g, file)
    ensures reply == TryStep(g, play, number, t).0 && OnDisk(TryStep(g, play, number, t).1, file')
    ensures Archived(g, TryStep(g, play, number, t).1, archived)
    ensures g.ended != ONGOING ==> reply == NOK && file'.None? && archived.None?
    ensures g.ended == ONGOING ==>
              && Parse(FileOf(file', archived)).Ok?
              && Rules(g, play, number, t, reply, Parse(FileOf(file', archived)).value)
              && (file'.Some? <==> Parse(FileOf(file', archived)).value.ended == ONGOING)
  {
    TryFollowsRules(g, play, number, t);
    TryKeeps(g, play, number, t);
    hide TryStep, Print, Parse, Rules;
    if file.None? {
      return NOK, None, None;
    }
    ParsePrint(g);
    var parsed := ParseGame(file.value);
    var game := new LiveGame.Load(parsed.value, file.value);
    reply := Requested(game, play, number, t, g);
    file' := if game.ended == ONGOING then Some(game.file) else None;
    archived := if game.ended == ONGOING then None else Some(game.file);
    FileParses(g, TryStep(g, play, number, t).1, file', archived);
  }
}
