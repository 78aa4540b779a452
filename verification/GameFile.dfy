/** Game files: the strict field reader over a file, and the printer and parser of games. */
module GameFile {
  const SEP := ' '
  const EOM := '\n'
  const PLID_SIZE := 6
  const GUESS_SIZE := 4
  const MAX_TRIALS := 8
  const MAX_PLAYTIME := 600
  const MAX_PLAYTIME_SIZE := 3
  const SIZE_MAX := 0xFFFF_FFFF_FFFF_FFFF

  datatype Error = Syntax | MissingEom | Corrupted

  datatype Result<T> = Ok(value: T) | Fail(error: Error)

  // ---------- reading fields ----------

  /** How far a file was read, and whether the end of a message or of the file was met. */
  datatype Source = Source(at: nat, finished: bool, foundEom: bool) {
    predicate Valid(text: string) { at <= |text| }

    function Reset(): Source { this.(finished := false, foundEom := false) }

    function Left(text: string): nat
      requires Valid(text)
    {
      |text| - at
    }
  }

  predicate IsSkippable(c: char) {
    c == ' ' || c == '\t' || c as int == 11 || c as int == 12 || c == '\r'
  }

  /** Up to len characters; the end of a message is only noticed as the last of them, and is dropped. */
  function ReadLen(text: string, src: Source, len: nat): (r: (Result<string>, Source))
    requires src.Valid(text)
    ensures r.1.Valid(text) && r.1.at >= src.at
    ensures r.0.Ok? ==> |r.0.value| <= len && (r.0.value != "" ==> r.1.at > src.at)
  {
    if len == 0 then (Ok(""), src)
    else if src.finished then (if src.foundEom then Ok("") else Fail(MissingEom), src)
    else
      var n := if len <= src.Left(text) then len else src.Left(text);
      if n == 0 then (Fail(MissingEom), src.(finished := true))
      else
        var chunk, src' := text[src.at..src.at + n], src.(at := src.at + n);
        if chunk[n - 1] == EOM then (Ok(chunk[..n - 1]), src'.(finished := true, foundEom := true))
        else if n < len then (Fail(MissingEom), src'.(finished := true))
        else (Ok(chunk), src')
  }

  /** After the minimum: goes on to a separator, the end of the message, or one character too many. */
  function More(text: string, src: Source, buf: string, max: nat): (r: (Result<string>, Source))
    requires src.Valid(text)
    ensures r.1.Valid(text) && r.1.at >= src.at
    ensures r.0.Ok? ==> |r.0.value| >= |buf| && (|buf| <= max ==> |r.0.value| <= max)
    decreases src.Left(text)
  {
    var (c, src') := ReadLen(text, src, 1);
    if c.Fail? then (c, src')
    else if c.value == "" || IsSkippable(c.value[0]) then (Ok(buf), src')
    else if |buf| < max then More(text, src', buf + c.value, max)
    else (Fail(Syntax), src')
  }

  /** A field of min to max characters and the separator after it. */
  function Read(text: string, src: Source, min: nat, max: nat): (r: (Result<string>, Source))
    requires src.Valid(text)
    ensures r.1.Valid(text) && r.1.at >= src.at
    ensures r.0.Ok? && 0 < min <= max ==> |r.0.value| >= min && r.1.at > src.at
  {
    if min > max || min == 0 then (Ok(""), src)
    else if src.finished then (Fail(Syntax), src)
    else
      var (first, src') := ReadLen(text, src, min);
      if first.Fail? then (first, src')
      else if |first.value| < min then (Fail(Syntax), src')
      else More(text, src', first.value, max)
  }

  /** Nothing but separators is left before the end of the message. */
  function NoMoreFields(text: string, src: Source): Result<bool>
    requires src.Valid(text)
    decreases src.Left(text)
  {
    if src.foundEom then Ok(true) else
      var (c, src') := ReadLen(text, src, 1);
      if c.Fail? then Fail(c.error)
      else if c.value == "" then Ok(true)
      else if IsSkippable(c.value[0]) then NoMoreFields(text, src')
      else Ok(false)
  }

  lemma ReadLenCases(text: string, src: Source, len: nat)
    requires src.Valid(text) && len > 0 && !src.finished
    ensures src.Left(text) == 0 ==> ReadLen(text, src, len) == (Fail(MissingEom), src.(finished := true))
    ensures src.Left(text) > 0 ==>
            var n := if len <= src.Left(text) then len else src.Left(text);
            var chunk, src' := text[src.at..src.at + n], src.(at := src.at + n);
            ReadLen(text, src, len) ==
              if chunk[n - 1] == EOM then (Ok(chunk[..n - 1]), src'.(finished := true, foundEom := true))
                                 else if n < len then (Fail(MissingEom), src'.(finished := true)) else (Ok(chunk), src')
  {
  }

  /** The same reader as a loop over a stream that is advanced in place. */
  class Stream {
    const text: string
    var at: nat
    var finished: bool
    var foundEom: bool

    function State(): Source
      reads this
    {
      Source(at, finished, foundEom)
    }

    constructor (text: string)
      ensures State() == Source(0, false, false) && this.text == text
    {
      this.text, at, finished, foundEom := text, 0, false, false;
    }

    method Reset()
      modifies this
      ensures State() == old(State()).Reset()
    {
      finished, foundEom := false, false;
    }

    /** Appends the next n characters; an end of message as the last of them is dropped. */
    method Take(buf: string, n: nat) returns (r: string, ended: bool)
      requires State().Valid(text) && 0 < n <= |text| - at && !finished
      modifies this
      ensures ended <==> text[old(at) + n - 1] == EOM
      ensures State() ==
                if ended then old(State()).(at := old(at) + n, finished := true, foundEom := true)
                else old(State()).(at := old(at) + n)
      ensures r == if ended then buf + text[old(at)..old(at) + n][..n - 1] else buf + text[old(at)..old(at) + n]
      ensures buf == "" ==> r == if ended then text[old(at)..old(at) + n][..n - 1] else text[old(at)..old(at) + n]
    {
      var chunk := text[at..at + n];
      at := at + n;
      ended := chunk[n - 1] == EOM;
      if ended {
        finished, foundEom := true, true;
        chunk := chunk[..n - 1];
      }
      r := buf + chunk;
    }

    /** Reads in a loop, as a read may come back short at the end of the file. */
    method ReadSome(len: nat) returns (r: Result<string>)
      requires State().Valid(text)
      modifies this
      ensures State().Valid(text) && (r, State()) == ReadLen(text, old(State()), len)
    {
      if len == 0 {
        return Ok("");
      }
      if finished {
        return if foundEom then Ok("") else Fail(MissingEom);
      }
      ReadLenCases(text, State(), len);
      hide ReadLen;
      var buf, left := "", len;
      while left != 0
        invariant 0 <= left <= len && State().Valid(text) && !finished
        invariant left == len ==> State() == old(State()) && buf == ""
        invariant left == 0 ==> (Ok(buf), State()) == ReadLen(text, old(State()), len)
        invariant 0 < left < len ==>
                    at == |text| && (Fail(MissingEom), State().(finished := true)) == ReadLen(text, old(State()), len)
        decreases left
      {
        var n := if left <= |text| - at then left else |text| - at;
        if n == 0 {
          finished := true;
          return Fail(MissingEom);
        }
        var ended;
        buf, ended := Take(buf, n);
        if ended {
          return Ok(buf);
        }
        left := left - n;
      }
      r := Ok(buf);
    }

    method ReadField(min: nat, max: nat) returns (r: Result<string>)
      requires State().Valid(text)
      modifies this
      ensures State().Valid(text) && (r, State()) == Read(text, old(State()), min, max)
    {
      if min > max || min == 0 {
        return Ok("");
      }
      if finished {
        return Fail(Syntax);
      }
      r := ReadSome(min);
      if r.Fail? {
        return;
      }
      if |r.value| < min {
        return Fail(Syntax);
      }
      var buf := r.value;
      ghost var goal := More(text, State(), buf, max);
      for i := min to max
        invariant State().Valid(text) && |buf| == i
        invariant goal == More(text, State(), buf, max) && goal == Read(text, old(State()), min, max)
      {
        var c := ReadSome(1);
        if c.Fail? {
          return c;
        }
        if c.value == "" || IsSkippable(c.value[0]) {
          return Ok(buf);
        }
        buf := buf + c.value;
      }
      var c := ReadSome(1);
      if c.Fail? {
        return c;
      }
      if c.value == "" || IsSkippable(c.value[0]) {
        return Ok(buf);
      }
      r := Fail(Syntax);
    }
  }

  // ---------- numbers ----------

  function Digit(d: nat): char
    requires d < 10
  {
    '0' + d as char
  }

  predicate IsDigit(c: char) { '0' <= c <= '9' }

  function Digits(n: nat): (s: string)
    ensures |s| > 0 && forall i :: 0 <= i < |s| ==> IsDigit(s[i])
  {
    if n < 10 then [Digit(n)] else Digits(n / 10) + [Digit(n % 10)]
  }

  /** The number at the start of a field, none if it does not start with a digit. */
  function Number(s: string, acc: nat): nat {
    if s == "" || !IsDigit(s[0]) then acc else Number(s[1..], 10 * acc + (s[0] as int - '0' as int))
  }

  function SkipSpaces(s: string): string {
    if s != "" && (IsSkippable(s[0]) || s[0] == '\n') then SkipSpaces(s[1..]) else s
  }

  /** The number after white space and a sign; a negative one wraps around, one that is too large is refused. */
  function Stoul(s: string): Result<nat> {
    var signed := SkipSpaces(s);
    var digits := if signed != "" && signed[0] in {'+', '-'} then signed[1..] else signed;
    if digits == "" || !IsDigit(digits[0]) || Number(digits, 0) > SIZE_MAX then Fail(Corrupted)
    else Ok(if signed[0] == '-' then (SIZE_MAX + 1 - Number(digits, 0)) % (SIZE_MAX + 1) else Number(digits, 0))
  }

  lemma {:induction false} NumberAppend(s: string, d: nat, acc: nat)
    requires d < 10 && forall i :: 0 <= i < |s| ==> IsDigit(s[i])
    ensures Number(s + [Digit(d)], acc) == 10 * Number(s, acc) + d
  {
    var t := s + [Digit(d)];
    if s == "" {
      assert t[1..] == "";
    } else {
      assert t[1..] == s[1..] + [Digit(d)];
      NumberAppend(s[1..], d, 10 * acc + (s[0] as int - '0' as int));
    }
  }

  lemma {:induction false} NumberDigits(n: nat)
    ensures Number(Digits(n), 0) == n
  {
    if n >= 10 {
      NumberDigits(n / 10);
      NumberAppend(Digits(n / 10), n % 10, 0);
    } else {
      assert Digits(n)[1..] == "";
      assert Number(Digits(n), 0) == Number("", Digit(n) as int - '0' as int);
    }
  }

  /** Reading a printed number gives it back. */
  lemma StoulDigits(n: nat)
    requires n <= SIZE_MAX
    ensures Stoul(Digits(n)) == Ok(n)
  {
    NumberDigits(n);
    hide Digits;
    assert IsDigit(Digits(n)[0]) && SkipSpaces(Digits(n)) == Digits(n);
  }

  /** A number below 1000 takes at most three digits. */
  lemma ShortDigits(n: nat)
    requires n < 1000
    ensures |Digits(n)| <= 3
  {
    assert |Digits(n / 10)| <= 2 by {
      assert n / 10 < 100 && n / 10 / 10 < 10;
    }
  }

  // ---------- a printed field is read back ----------

  /** A field holds neither separators nor the end of a message. */
  predicate IsField(f: string) {
    f != "" && forall i :: 0 <= i < |f| ==> !IsSkippable(f[i]) && f[i] != EOM
  }

  /** The text has s at this point. */
  ghost predicate At(text: string, at: nat, s: string) {
    at + |s| <= |text| && forall i :: 0 <= i < |s| ==> text[at + i] == s[i]
  }

  lemma Chunk(text: string, at: nat, s: string, n: nat)
    requires At(text, at, s) && n <= |s|
    ensures text[at..at + n] == s[..n]
  {
  }

  /** The text at this point is the field, then a separator or the end of the message. */
  ghost predicate FieldAt(text: string, at: nat, f: string, end: char) {
    At(text, at, f) && at + |f| < |text| && text[at + |f|] == end && (end == SEP || end == EOM)
  }

  function AfterField(src: Source, f: string, end: char): Source {
    src.(at := src.at + |f| + 1, finished := end == EOM, foundEom := end == EOM)
  }

  lemma {:induction false} MoreReads(text: string, src: Source, f: string, end: char, i: nat, max: nat)
    requires src.Valid(text) && !src.finished && !src.foundEom && IsField(f) && i <= |f| <= max
    requires src.at >= i && FieldAt(text, src.at - i, f, end)
    ensures More(text, src, f[..i], max) == (Ok(f), AfterField(src.(at := src.at - i), f, end))
    decreases |f| - i
  {
    var at := src.at;
    if i == |f| {
      assert text[at..at + 1][0] == end;
      assert f[..i] == f;
    } else {
      assert text[at] == f[i] && text[at..at + 1] == [f[i]];
      assert f[..i] + [f[i]] == f[..i + 1];
      MoreReads(text, src.(at := at + 1), f, end, i + 1, max);
    }
  }

  lemma ReadsField(text: string, src: Source, f: string, end: char, min: nat, max: nat)
    requires src.Valid(text) && !src.finished && !src.foundEom && IsField(f) && 0 < min <= |f| <= max
    requires FieldAt(text, src.at, f, end)
    ensures Read(text, src, min, max) == (Ok(f), AfterField(src, f, end))
  {
    Chunk(text, src.at, f, min);
    MoreReads(text, src.(at := src.at + min), f, end, min, max);
  }

  // ---------- games ----------

  datatype Trial = Trial(guess: string, nB: int, nW: int, when: nat)

  const ONGOING := 'O'
  const WON := 'W'
  const LOST_TIME := 'T'
  const LOST_TRIES := 'F'
  const QUIT := 'Q'

  /** A game as it is kept on disk; it has an end time only when it is over. */
  datatype Game = Game(plid: string, mode: char, key: string, duration: nat, start: nat, trials: seq<Trial>,
                       ended: char, end: nat)

  // ---------- printing ----------

  function Field(f: string, end: char): string { f + [end] }

  function Header(g: Game): string {
    Field(g.plid, SEP) +
      (Field([g.mode], SEP) + (Field(g.key, SEP) + (Field(Digits(g.duration), SEP) + Field(Digits(g.start), EOM))))
  }

  function Line(number: nat, t: Trial): string
    requires number < 9 && t.nB >= 0 && t.nW >= 0
  {
    Field([Digit(number + 1)], SEP)
    + (Field(t.guess, SEP) + (Field(Digits(t.nB), SEP) + (Field(Digits(t.nW), SEP) + Field(Digits(t.when), EOM))))
  }

  function Ending(g: Game): string {
    if g.ended == ONGOING then "" else Field([g.ended], SEP) + Field(Digits(g.end), EOM)
  }

  predicate TrialOk(t: Trial) {
    IsField(t.guess) && |t.guess| == GUESS_SIZE && 0 <= t.nB <= GUESS_SIZE && 0 <= t.nW <= GUESS_SIZE &&
      t.when <= MAX_PLAYTIME
  }

  predicate TrialsOk(trials: seq<Trial>) {
    |trials| <= MAX_TRIALS && forall i :: 0 <= i < |trials| ==> TrialOk(trials[i])
  }

  /** What create and the moves of a game leave on disk. */
  predicate GameOk(g: Game) {
    && IsField(g.plid) && |g.plid| == PLID_SIZE && IsField([g.mode]) && IsField(g.key) && |g.key| == GUESS_SIZE
    && g.duration <= MAX_PLAYTIME && g.start < SIZE_MAX && TrialsOk(g.trials)
    && g.ended in {ONGOING, WON, LOST_TIME, LOST_TRIES, QUIT}
    && g.end < SIZE_MAX && (g.ended == ONGOING ==> g.end == 0)
  }

  /** The lines of the trials from number `first` on. */
  function Lines(trials: seq<Trial>, first: nat): string
    requires first <= |trials| <= MAX_TRIALS && forall i :: 0 <= i < |trials| ==> trials[i].nB >= 0 && trials[i].nW >= 0
    decreases |trials| - first
  {
    if first == |trials| then "" else Line(first, trials[first]) + Lines(trials, first + 1)
  }

  function Print(g: Game): string
    requires |g.trials| <= MAX_TRIALS && forall i :: 0 <= i < |g.trials| ==> g.trials[i].nB >= 0 && g.trials[i].nW >= 0
  {
    Header(g) + Lines(g.trials, 0) + Ending(g)
  }

  lemma SampleDigits()
    ensures Digits(600) == "600" && Digits(605) == "605" && Digits(12) == "12" && Digits(5) == "5"
    ensures Digits(0) == "0" && Digits(1) == "1"
  {
    assert Digits(60) == "60";
  }

  /** The layout of a game file: a line for the game, one for each trial, one for the ending. */
  lemma PrintedSample()
    ensures Print(Game("123456", 'P', "RGBY", 600, 5, [Trial("RRGG", 1, 0, 12)], LOST_TIME, 605)) ==
              "123456 " + ("P " + ("RGBY " + ("600 " + "5\n"))) +
              ("1 " + ("RRGG " + ("1 " + ("0 " + "12\n")))) + ("T " + "605\n")
  {
    var trial := Trial("RRGG", 1, 0, 12);
    var trials := [trial];
    SampleDigits();
    hide Digits;
    assert Lines(trials, 1) == "";
    assert Lines(trials, 0) == Line(0, trial) + "" == Line(0, trial);
    hide Lines;
    assert Field("123456", SEP) == "123456 " && Field("RGBY", SEP) == "RGBY " && Field("RRGG", SEP) == "RRGG ";
    assert Field("600", SEP) == "600 " && Field("5", EOM) == "5\n" && Field("12", EOM) == "12\n";
    assert Field("605", EOM) == "605\n" && Field("0", SEP) == "0 " && Field("1", SEP) == "1 ";
    assert Field(['P'], SEP) == "P " && Field(['T'], SEP) == "T ";
  }

  // ---------- parsing ----------

  function ReadNumber(text: string, src: Source, max: nat): (r: (Result<nat>, Source))
    requires src.Valid(text)
    ensures r.1.Valid(text) && r.1.at >= src.at
  {
    var (f, src') := Read(text, src, 1, max);
    if f.Fail? then (Fail(f.error), src') else (Stoul(f.value), src')
  }

  /** The first line: anything wrong in it makes the file corrupted. */
  function ParseHeader(text: string, src: Source): (r: (Result<Game>, Source))
    requires src.Valid(text)
    ensures r.1.Valid(text) && r.1.at >= src.at
  {
    var (plid, s1) := Read(text, src, PLID_SIZE, PLID_SIZE);
    if plid.Fail? then (Fail(Corrupted), s1) else
    var (mode, s2) := Read(text, s1, 1, 1);
    if mode.Fail? then (Fail(Corrupted), s2) else
    var (key, s3) := Read(text, s2, GUESS_SIZE, GUESS_SIZE);
    if key.Fail? then (Fail(Corrupted), s3) else
    var (duration, s4) := ReadNumber(text, s3, MAX_PLAYTIME_SIZE);
    if duration.Fail? then (Fail(Corrupted), s4) else
    var (start, s5) := ReadNumber(text, s4, SIZE_MAX);
    if start.Fail? then (Fail(Corrupted), s5) else
    (Ok(Game(plid.value, mode.value[0], key.value, duration.value % 0x10000, start.value, [], ONGOING, 0)), s5.Reset())
  }

  /** The rest of a trial line, after its number. */
  function ParseTrial(text: string, src: Source): (r: (Result<Trial>, Source))
    requires src.Valid(text)
    ensures r.1.Valid(text) && r.1.at >= src.at
  {
    var (guess, s1) := Read(text, src, GUESS_SIZE, GUESS_SIZE);
    if guess.Fail? then (Fail(guess.error), s1) else
    var (nB, s2) := Read(text, s1, 1, 1);
    if nB.Fail? then (Fail(nB.error), s2) else
    var (nW, s3) := Read(text, s2, 1, 1);
    if nW.Fail? then (Fail(nW.error), s3) else
    var (when, s4) := ReadNumber(text, s3, MAX_PLAYTIME_SIZE);
    if when.Fail? then (Fail(when.error), s4) else
    (Ok(Trial(guess.value, nB.value[0] as int - '0' as int, nW.value[0] as int - '0' as int, when.value % 0x10000)),
     s4.Reset())
  }

  function ParseEnding(text: string, src: Source, g: Game, reason: char): Result<Game>
    requires src.Valid(text)
  {
    if reason !in {LOST_TRIES, LOST_TIME, WON, QUIT} then Fail(Corrupted) else
    var (end, s1) := ReadNumber(text, src, SIZE_MAX);
    if end.Fail? then Fail(Corrupted) else
    var over := NoMoreFields(text, s1);
    if over.Fail? then Fail(over.error) else if !over.value then Fail(Corrupted)
    else Ok(g.(ended := reason, end := end.value))
  }

  /** The trials, up to the end of the file or to a line that does not start with a trial number. */
  function ParseTrials(text: string, src: Source, g: Game): Result<Game>
    requires src.Valid(text)
    decreases src.Left(text)
  {
    var (number, s1) := Read(text, src, 1, 1);
    if number.Fail? then (if number.error == MissingEom then Ok(g) else Fail(number.error))
    else if number.value[0] < '1' || number.value[0] > '8' then ParseEnding(text, s1, g, number.value[0])
    else if |g.trials| >= MAX_TRIALS then Fail(Corrupted)
    else
      var (t, s2) := ParseTrial(text, s1);
      if t.Fail? then Fail(t.error) else ParseTrials(text, s2, g.(trials := g.trials + [t.value]))
  }

  function Parse(text: string): Result<Game> {
    var (g, src) := ParseHeader(text, Source(0, false, false));
    if g.Fail? then g else ParseTrials(text, src, g.value)
  }

  /** What an accepted file must hold, whatever else is in it. */
  predicate Shaped(g: Game) {
    && |g.plid| == PLID_SIZE && |g.key| == GUESS_SIZE && g.duration < 0x10000 && |g.trials| <= MAX_TRIALS
    && (forall i :: 0 <= i < |g.trials| ==> |g.trials[i].guess| == GUESS_SIZE && g.trials[i].when < 0x10000)
    && g.ended in {ONGOING, WON, LOST_TIME, LOST_TRIES, QUIT} && (g.ended == ONGOING ==> g.end == 0)
  }

  lemma ReadSize(text: string, src: Source, min: nat, max: nat)
    requires src.Valid(text) && 0 < min <= max && Read(text, src, min, max).0.Ok?
    ensures min <= |Read(text, src, min, max).0.value| <= max
  {
  }

  lemma ReadTrialShape(text: string, src: Source)
    requires src.Valid(text) && ParseTrial(text, src).0.Ok?
    ensures |ParseTrial(text, src).0.value.guess| == GUESS_SIZE && ParseTrial(text, src).0.value.when < 0x10000
  {
    ReadSize(text, src, GUESS_SIZE, GUESS_SIZE);
    hide Read, Stoul;
  }

  lemma {:induction false} TrialsShaped(text: string, src: Source, g: Game)
    requires src.Valid(text) && Shaped(g) && g.ended == ONGOING && ParseTrials(text, src, g).Ok?
    ensures Shaped(ParseTrials(text, src, g).value)
    decreases src.Left(text)
  {
    hide Read, ReadNumber, NoMoreFields, ParseTrial;
    var (number, s1) := Read(text, src, 1, 1);
    if number.Ok? && '1' <= number.value[0] <= '8' {
      ReadTrialShape(text, s1);
      var (t, s2) := ParseTrial(text, s1);
      TrialsShaped(text, s2, g.(trials := g.trials + [t.value]));
    }
  }

  /** Any accepted text, corrupted or not, gives a game of the right shape. */
  lemma ParsedShaped(text: string)
    requires Parse(text).Ok?
    ensures Shaped(Parse(text).value)
  {
    var (g, src) := ParseHeader(text, Source(0, false, false));
    var (plid, s1) := Read(text, Source(0, false, false), PLID_SIZE, PLID_SIZE);
    var (mode, s2) := Read(text, s1, 1, 1);
    ReadSize(text, Source(0, false, false), PLID_SIZE, PLID_SIZE);
    ReadSize(text, s2, GUESS_SIZE, GUESS_SIZE);
    hide Read, ReadNumber, ParseTrials;
    TrialsShaped(text, src, g.value);
  }

  method ReadHeader(input: Stream) returns (r: Result<Game>)
    requires input.State().Valid(input.text)
    modifies input
    ensures input.State().Valid(input.text) && (r, input.State()) == ParseHeader(input.text, old(input.State()))
  {
    hide Read, Stoul;
    var plid := input.ReadField(PLID_SIZE, PLID_SIZE);
    if plid.Fail? { return Fail(Corrupted); }
    var mode := input.ReadField(1, 1);
    if mode.Fail? { return Fail(Corrupted); }
    var key := input.ReadField(GUESS_SIZE, GUESS_SIZE);
    if key.Fail? { return Fail(Corrupted); }
    var duration := input.ReadField(1, MAX_PLAYTIME_SIZE);
    if duration.Fail? || Stoul(duration.value).Fail? { return Fail(Corrupted); }
    var start := input.ReadField(1, SIZE_MAX);
    if start.Fail? || Stoul(start.value).Fail? { return Fail(Corrupted); }
    input.Reset();
    r := Ok(Game(plid.value, mode.value[0], key.value, Stoul(duration.value).value % 0x10000, Stoul(start.value).value,
                 [], ONGOING, 0));
  }

  method ReadTrial(input: Stream) returns (r: Result<Trial>)
    requires input.State().Valid(input.text)
    modifies input
    ensures input.State().Valid(input.text) && (r, input.State()) == ParseTrial(input.text, old(input.State()))
  {
    hide Read, Stoul;
    var guess := input.ReadField(GUESS_SIZE, GUESS_SIZE);
    if guess.Fail? { return Fail(guess.error); }
    var nB := input.ReadField(1, 1);
    if nB.Fail? { return Fail(nB.error); }
    var nW := input.ReadField(1, 1);
    if nW.Fail? { return Fail(nW.error); }
    var when := input.ReadField(1, MAX_PLAYTIME_SIZE);
    if when.Fail? { return Fail(when.error); }
    if Stoul(when.value).Fail? { return Fail(Stoul(when.value).error); }
    input.Reset();
    r := Ok(Trial(guess.value, nB.value[0] as int - '0' as int, nW.value[0] as int - '0' as int,
                  Stoul(when.value).value % 0x10000));
  }

  method ReadEnding(input: Stream, g: Game, reason: char) returns (r: Result<Game>)
    requires input.State().Valid(input.text)
    modifies input
    ensures r == ParseEnding(input.text, old(input.State()), g, reason)
  {
    if reason != LOST_TRIES && reason != LOST_TIME && reason != WON && reason != QUIT {
      return Fail(Corrupted);
    }
    var end := input.ReadField(1, SIZE_MAX);
    if end.Fail? || Stoul(end.value).Fail? {
      return Fail(Corrupted);
    }
    var over := NoMoreFields(input.text, input.State());
    if over.Fail? {
      return Fail(over.error);
    }
    r := if over.value then Ok(g.(ended := reason, end := Stoul(end.value).value)) else Fail(Corrupted);
  }

  /** The parser as it runs, field by field over the stream. */
  method ParseGame(text: string) returns (r: Result<Game>)
    ensures r == Parse(text)
  {
    hide Read, Stoul, NoMoreFields;
    var input := new Stream(text);
    var header := ReadHeader(input);
    if header.Fail? {
      return header;
    }
    var g := header.value;
    for i := 0 to MAX_TRIALS + 1
      invariant input.State().Valid(text) && |g.trials| == i <= MAX_TRIALS &&
                Parse(text) == ParseTrials(text, input.State(), g)
    {
      var number := input.ReadField(1, 1);
      if number.Fail? {
        return if number.error == MissingEom then Ok(g) else Fail(number.error);
      }
      if number.value[0] < '1' || number.value[0] > '8' {
        r := ReadEnding(input, g, number.value[0]);
        return;
      }
      if i == MAX_TRIALS {
        return Fail(Corrupted);
      }
      var t := ReadTrial(input);
      if t.Fail? {
        return Fail(t.error);
      }
      g := g.(trials := g.trials + [t.value]);
    }
    assert false;
  }

  // ---------- parsing undoes printing ----------

  lemma AtParts(text: string, at: nat, a: string, b: string)
    requires At(text, at, a + b)
    ensures At(text, at, a) && At(text, at + |a|, b)
  {
    forall i | 0 <= i < |a|
      ensures text[at + i] == a[i]
    {
      assert (a + b)[i] == a[i];
    }
    forall i | 0 <= i < |b|
      ensures text[at + |a| + i] == b[i]
    {
      assert (a + b)[|a| + i] == b[i];
    }
  }

  ghost predicate Open(text: string, src: Source) { src.Valid(text) && !src.finished && !src.foundEom }

  /** The reader has moved on by some characters, up to where the rest was printed. */
  ghost predicate Stands(text: string, src: Source, src': Source, moved: nat, end: char, rest: string) {
    && src'.at == src.at + moved && At(text, src'.at, rest)
    && (if end == SEP then Open(text, src') else Open(text, src'.Reset()))
  }

  /** Reading where a field and its end were printed gives the field and leaves what follows. */
  lemma ReadHere(text: string, src: Source, f: string, end: char, min: nat, max: nat, rest: string)
    requires Open(text, src) && IsField(f) && 0 < min <= |f| <= max && (end == SEP || end == EOM)
    requires At(text, src.at, Field(f, end) + rest)
    ensures Read(text, src, min, max) == (Ok(f), AfterField(src, f, end))
    ensures Stands(text, src, AfterField(src, f, end), |f| + 1, end, rest)
  {
    AtParts(text, src.at, Field(f, end), rest);
    AtParts(text, src.at, f, [end]);
    assert text[src.at + |f| + 0] == [end][0];
    ReadsField(text, src, f, end, min, max);
  }

  lemma DigitsField(n: nat)
    ensures IsField(Digits(n)) && |Digits(n)| >= 1
  {
  }

  lemma ReadNumberHere(text: string, src: Source, n: nat, end: char, max: nat, rest: string)
    requires Open(text, src) && n <= SIZE_MAX && |Digits(n)| <= max && (end == SEP || end == EOM) &&
             At(text, src.at, Field(Digits(n), end) + rest)
    ensures ReadNumber(text, src, max) == (Ok(n), AfterField(src, Digits(n), end))
    ensures Stands(text, src, AfterField(src, Digits(n), end), |Digits(n)| + 1, end, rest)
  {
    DigitsField(n);
    ReadHere(text, src, Digits(n), end, 1, max, rest);
    StoulDigits(n);
  }

  lemma {:induction false} DigitsBound(n: nat)
    ensures |Digits(n)| <= n + 1
  {
    if n >= 10 {
      DigitsBound(n / 10);
    }
  }

  /** The header is read back, and the reader stands at the first trial. */
  lemma HeaderBack(g: Game, text: string)
    requires GameOk(g) && At(text, 0, Header(g))
    ensures ParseHeader(text, Source(0, false, false)) ==
              (Ok(g.(trials := [], ended := ONGOING, end := 0)), Source(|Header(g)|, false, false))
  {
    hide Read, ReadNumber, Digits, IsField, At;
    var start := Field(Digits(g.start), EOM);
    var duration := Field(Digits(g.duration), SEP) + start;
    var key := Field(g.key, SEP) + duration;
    var mode := Field([g.mode], SEP) + key;
    var s0 := Source(0, false, false);
    ReadHere(text, s0, g.plid, SEP, PLID_SIZE, PLID_SIZE, mode);
    var s1 := AfterField(s0, g.plid, SEP);
    ReadHere(text, s1, [g.mode], SEP, 1, 1, key);
    var s2 := AfterField(s1, [g.mode], SEP);
    ReadHere(text, s2, g.key, SEP, GUESS_SIZE, GUESS_SIZE, duration);
    var s3 := AfterField(s2, g.key, SEP);
    ShortDigits(g.duration);
    ReadNumberHere(text, s3, g.duration, SEP, MAX_PLAYTIME_SIZE, start);
    var s4 := AfterField(s3, Digits(g.duration), SEP);
    DigitsBound(g.start);
    assert start + "" == start;
    ReadNumberHere(text, s4, g.start, EOM, SIZE_MAX, "");
  }

  function TrialTail(t: Trial, rest: string): string
    requires t.nB >= 0 && t.nW >= 0
  {
    Field(Digits(t.nW), SEP) + (Field(Digits(t.when), EOM) + rest)
  }

  function TrialBody(t: Trial, rest: string): string
    requires t.nB >= 0 && t.nW >= 0
  {
    Field(t.guess, SEP) + (Field(Digits(t.nB), SEP) + TrialTail(t, rest))
  }

  lemma SingleDigit(n: nat)
    requires n < 10
    ensures |Digits(n)| == 1 && IsField(Digits(n)) && Digits(n)[0] as int - '0' as int == n
  {
  }

  lemma TrialFront(text: string, src: Source, t: Trial, rest: string)
    requires Open(text, src) && TrialOk(t) && At(text, src.at, TrialBody(t, rest))
    ensures Read(text, src, GUESS_SIZE, GUESS_SIZE) == (Ok(t.guess), AfterField(src, t.guess, SEP)) &&
            AfterField(src, t.guess, SEP).Valid(text)
    ensures Read(text, AfterField(src, t.guess, SEP), 1, 1) ==
              (Ok(Digits(t.nB)), AfterField(AfterField(src, t.guess, SEP), Digits(t.nB), SEP))
    ensures Stands(text, src, AfterField(AfterField(src, t.guess, SEP), Digits(t.nB), SEP), GUESS_SIZE + 3, SEP,
                   TrialTail(t, rest))
  {
    SingleDigit(t.nB);
    hide Read, Digits, IsField, At, Field, TrialTail;
    ReadHere(text, src, t.guess, SEP, GUESS_SIZE, GUESS_SIZE, Field(Digits(t.nB), SEP) + TrialTail(t, rest));
    ReadHere(text, AfterField(src, t.guess, SEP), Digits(t.nB), SEP, 1, 1, TrialTail(t, rest));
  }

  lemma TrialRear(text: string, src: Source, t: Trial, rest: string)
    requires Open(text, src) && TrialOk(t) && At(text, src.at, TrialTail(t, rest))
    ensures Read(text, src, 1, 1) == (Ok(Digits(t.nW)), AfterField(src, Digits(t.nW), SEP)) &&
            AfterField(src, Digits(t.nW), SEP).Valid(text)
    ensures ReadNumber(text, AfterField(src, Digits(t.nW), SEP), MAX_PLAYTIME_SIZE)
            == (Ok(t.when), AfterField(AfterField(src, Digits(t.nW), SEP), Digits(t.when), EOM))
    ensures Stands(text, src, AfterField(AfterField(src, Digits(t.nW), SEP), Digits(t.when), EOM), |Digits(t.when)| + 3,
                   EOM, rest)
  {
    SingleDigit(t.nW);
    ShortDigits(t.when);
    hide Read, ReadNumber, Digits, IsField, At, Field;
    ReadHere(text, src, Digits(t.nW), SEP, 1, 1, Field(Digits(t.when), EOM) + rest);
    ReadNumberHere(text, AfterField(src, Digits(t.nW), SEP), t.when, EOM, MAX_PLAYTIME_SIZE, rest);
  }

  /** A trial line is read back, after its number. */
  lemma TrialBack(text: string, src: Source, t: Trial, rest: string)
    requires Open(text, src) && TrialOk(t) && At(text, src.at, TrialBody(t, rest))
    ensures var (r, src') := ParseTrial(text, src);
            r == Ok(t) && Open(text, src') && At(text, src'.at, rest) && src'.at == src.at + |TrialBody(t, "")|
  {
    hide Read, ReadNumber, Digits, IsField, At, AfterField;
    SingleDigit(t.nB);
    SingleDigit(t.nW);
    TrialFront(text, src, t, rest);
    var s1 := AfterField(src, t.guess, SEP);
    var s2 := AfterField(s1, Digits(t.nB), SEP);
    TrialRear(text, s2, t, rest);
    var s3 := AfterField(s2, Digits(t.nW), SEP);
    var s4 := AfterField(s3, Digits(t.when), EOM);
    assert ParseTrial(text, src) == (Ok(t), s4.Reset());
  }

  lemma EndingBack(text: string, src: Source, g: Game, g0: Game)
    requires Open(text, src) && GameOk(g) && g.ended != ONGOING && g0 == g.(ended := ONGOING, end := 0)
    requires At(text, src.at, Ending(g))
    ensures ParseTrials(text, src, g0) == Ok(g)
  {
    assert IsField([g.ended]);
    DigitsBound(g.end);
    var end := Field(Digits(g.end), EOM);
    assert end + "" == end;
    ReadHere(text, src, [g.ended], SEP, 1, 1, end);
    ReadNumberHere(text, AfterField(src, [g.ended], SEP), g.end, EOM, SIZE_MAX, "");
  }

  /** What is printed from trial number k on. */
  function Rest(g: Game, k: nat): string
    requires GameOk(g) && k <= |g.trials|
  {
    Lines(g.trials, k) + Ending(g)
  }

  /** What has been parsed before trial number k. */
  function Partly(g: Game, k: nat): Game
    requires k <= |g.trials|
  {
    g.(trials := g.trials[..k], ended := ONGOING, end := 0)
  }

  /** The reader stands where the trials from number k on are printed, and then the file ends. */
  ghost predicate AtTrial(text: string, src: Source, g: Game, k: nat)
    requires GameOk(g) && k <= |g.trials|
  {
    Open(text, src) && At(text, src.at, Rest(g, k)) && |text| == src.at + |Rest(g, k)|
  }

  /** After the last trial: the end of the file or the termination line. */
  lemma NoTrialsLeft(text: string, src: Source, g: Game)
    requires GameOk(g) && AtTrial(text, src, g, |g.trials|)
    ensures ParseTrials(text, src, Partly(g, |g.trials|)) == Ok(g)
  {
    assert Partly(g, |g.trials|) == g.(ended := ONGOING, end := 0) && Rest(g, |g.trials|) == Ending(g);
    if g.ended != ONGOING {
      EndingBack(text, src, g, Partly(g, |g.trials|));
    }
  }

  lemma LineParts(g: Game, k: nat)
    requires GameOk(g) && k < |g.trials|
    ensures Rest(g, k) == Field([Digit(k + 1)], SEP) + TrialBody(g.trials[k], Rest(g, k + 1))
    ensures |Rest(g, k)| == 2 + |TrialBody(g.trials[k], "")| + |Rest(g, k + 1)|
  {
  }

  /** One round of the trial loop. */
  lemma NextTrial(text: string, src: Source, g0: Game, s1: Source, s2: Source, number: char, t: Trial)
    requires src.Valid(text) && s1.Valid(text) && s2.Valid(text) && s2.at >= s1.at > src.at
    requires Read(text, src, 1, 1) == (Ok([number]), s1) && '1' <= number <= '8' && |g0.trials| < MAX_TRIALS
    requires ParseTrial(text, s1) == (Ok(t), s2)
    ensures ParseTrials(text, src, g0) == ParseTrials(text, s2, g0.(trials := g0.trials + [t]))
  {
  }

  lemma PartlyNext(g: Game, k: nat)
    requires k < |g.trials|
    ensures Partly(g, k).(trials := Partly(g, k).trials + [g.trials[k]]) == Partly(g, k + 1) &&
            |Partly(g, k).trials| == k
  {
    assert g.trials[..k] + [g.trials[k]] == g.trials[..k + 1];
  }

  /** One whole trial line is read back. */
  lemma LineBack(text: string, src: Source, g: Game, k: nat) returns (src': Source)
    requires GameOk(g) && k < |g.trials| && AtTrial(text, src, g, k)
    ensures AtTrial(text, src', g, k + 1)
    ensures ParseTrials(text, src, Partly(g, k)) == ParseTrials(text, src', Partly(g, k + 1))
  {
    var t, number := g.trials[k], [Digit(k + 1)];
    assert TrialOk(t) && IsField(number);
    LineParts(g, k);
    PartlyNext(g, k);
    hide Rest, ParseTrials, ParseTrial, Read, TrialBody, At, Partly, TrialOk, TrialsOk, IsField, AfterField, Field;
    ReadHere(text, src, number, SEP, 1, 1, TrialBody(t, Rest(g, k + 1)));
    var s1 := AfterField(src, number, SEP);
    TrialBack(text, s1, t, Rest(g, k + 1));
    src' := ParseTrial(text, s1).1;
    NextTrial(text, src, Partly(g, k), s1, src', number[0], t);
  }

  lemma {:induction false} TrialsBack(text: string, src: Source, g: Game, k: nat)
    requires GameOk(g) && k <= |g.trials| && AtTrial(text, src, g, k)
    ensures ParseTrials(text, src, Partly(g, k)) == Ok(g)
    decreases |g.trials| - k
  {
    hide AtTrial, ParseTrials, Partly, GameOk;
    if k == |g.trials| {
      NoTrialsLeft(text, src, g);
    } else {
      var src' := LineBack(text, src, g, k);
      TrialsBack(text, src', g, k + 1);
    }
  }

  lemma PrintedParts(g: Game)
    requires GameOk(g)
    ensures Print(g) == Header(g) + Rest(g, 0)
    ensures At(Print(g), 0, Header(g)) && At(Print(g), |Header(g)|, Rest(g, 0))
  {
    assert Print(g) == Header(g) + Rest(g, 0);
    hide Header, Rest, Print;
  }

  /** Parsing a printed game gives back every part of it. */
  lemma ParsePrint(g: Game)
    requires GameOk(g)
    ensures Parse(Print(g)) == Ok(g)
  {
    PrintedParts(g);
    hide Print, Rest, Header, At, ParseTrials, ParseHeader;
    HeaderBack(g, Print(g));
    assert Partly(g, 0) == g.(trials := [], ended := ONGOING, end := 0);
    TrialsBack(Print(g), Source(|Header(g)|, false, false), g, 0);
  }
}
