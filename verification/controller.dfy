/** The controller's per-frame match state machine. The socket loop of the
    controller is split into a pure step over an explicit state record:
    each frame the state and the emulator's snapshot go in, and the next
    state and the command to send back come out. The random choices of the
    character-select screen and the network's answer for the frame are
    parameters. */
module Controller {
  import opened Opt
  import opened Game
  import Bot

  datatype Phase = CharacterSelect | Idle | Fighting | MatchOver

  /** The random cursor directions pressed on one character-select frame. */
  datatype Directions = Directions(up: bool, down: bool, left: bool, right: bool)

  /** A round ends by timeout once the timer has been unchanged for more
      than this many consecutive fighting frames. */
  const StuckLimit: nat := 60

  /** Frames the machine must spend between rounds before a new round may
      start. */
  const IdleDwell: nat := 60

  /** Timer values above this earn a time bonus on a won round. */
  const TimeBonusBase: int := 48

  const MinSelectFrames: nat := 5
  const MaxSelectFrames: nat := 15

  datatype State = State(
    phase: Phase,
    history: seq<int>,          // one entry per finished round: 1 won, 0 lost
    damageDealt: nat,
    damageTaken: nat,
    healthBonus: nat,
    timeBonus: nat,
    distances: seq<nat>,        // player distance on every fighting frame
    lastOpponentHealth: Health,
    lastBotHealth: Health,
    charSelectFrames: nat,      // length of the random cursor phase
    framesWaited: nat,
    prevRoundStarted: bool,
    prevRoundOver: bool,
    prevTimer: Option<int>,     // None before the first frame
    timerStuckCount: nat,
    idleFrames: nat,
    command: Command)           // the bot's current command object

  datatype StepResult = StepResult(next: State, sent: Command)

  /** The inputs of one frame: the snapshot, the cursor directions drawn for
      it and the network's answer for it. */
  datatype Frame = Frame(snap: Snapshot, dirs: Directions, prediction: Bot.Prediction)

  /** How a round ended, in the order the detectors are tried. */
  datatype EndCause = ResultFlag | TimerStuck | KnockOut

  /** The packaged outcome of a match, as written to the results file. */
  datatype MatchResult = MatchResult(
    wonMatch: bool,
    history: seq<int>,
    damageDealt: nat,
    damageTaken: nat,
    healthBonus: nat,
    timeBonus: nat,
    averageDistance: real)

  // ---------------------------------------------------------------------
  // Round history

  /** Number of entries of h equal to v. */
  function Count(h: seq<int>, v: int): nat {
    if |h| == 0 then 0 else Count(h[..|h| - 1], v) + (if h[|h| - 1] == v then 1 else 0)
  }

  lemma CountAppend(h: seq<int>, x: int, v: int)
    ensures Count(h + [x], v) == Count(h, v) + (if x == v then 1 else 0)
  {
    assert (h + [x])[..|h|] == h;
  }

  predicate Bits(h: seq<int>) {
    forall i :: 0 <= i < |h| ==> h[i] == 0 || h[i] == 1
  }

  lemma {:induction false} CountBits(h: seq<int>)
    requires Bits(h)
    ensures Count(h, 0) + Count(h, 1) == |h|
  {
    if |h| > 0 {
      CountBits(h[..|h| - 1]);
    }
  }

  /** Best of three: the match is decided once either outcome has happened
      twice. */
  predicate MatchDecided(h: seq<int>) {
    Count(h, 0) >= 2 || Count(h, 1) >= 2
  }

  // ---------------------------------------------------------------------
  // The machine

  function Init(charSelectFrames: nat): (s: State)
    requires MinSelectFrames <= charSelectFrames <= MaxSelectFrames
    ensures Inv(s)
    ensures s.phase == CharacterSelect && s.framesWaited == 0 && s.history == []
  {
    State(CharacterSelect, [], 0, 0, 0, 0, [], FullHealth, FullHealth,
          charSelectFrames, 0, false, false, None, 0, 0, Fresh)
  }

  /** The facts every reachable state satisfies. */
  predicate Inv(s: State) {
    && MinSelectFrames <= s.charSelectFrames <= MaxSelectFrames
    && s.framesWaited <= s.charSelectFrames + 1
    && (s.phase != CharacterSelect ==> s.framesWaited == s.charSelectFrames + 1)
    && (s.phase == CharacterSelect ==> s.history == [])
    && (s.phase != Fighting ==> s.timerStuckCount == 0)
    && Bits(s.history)
    && (s.phase == MatchOver <==> MatchDecided(s.history))
    && (|s.history| > 0 ==> !MatchDecided(s.history[..|s.history| - 1]))
  }

  /** A round starts on the rising edge of "round started" while the round
      is not over. */
  predicate RoundBegins(prevStarted: bool, snap: Snapshot) {
    !prevStarted && snap.hasRoundStarted && !snap.isRoundOver
  }

  /** The stuck-timer counter after this frame's comparison: only a
      fighting frame with a previous timer compares. */
  function Tick(s: State, snap: Snapshot): nat {
    if s.prevTimer.Some? && s.phase == Fighting then
      if snap.timer == s.prevTimer.value then s.timerStuckCount + 1 else 0
    else
      s.timerStuckCount
  }

  predicate Conclusive(result: string) {
    result != "NOT_OVER" && result != "NONE"
  }

  /** The three round-end detectors, in priority order. */
  function EndConditions(prevRoundOver: bool, stuck: nat, snap: Snapshot): (c: seq<bool>)
    ensures |c| == 3
  {
    [ !prevRoundOver && snap.isRoundOver && Conclusive(snap.fightResult),
      stuck > StuckLimit,
      snap.player1.health == KnockedOut || snap.player2.health == KnockedOut ]
  }

  function Priority(c: EndCause): nat {
    match c
    case ResultFlag => 0
    case TimerStuck => 1
    case KnockOut => 2
  }

  /** Round-end detection: the first detector that fires decides the cause;
      when none fires the round goes on. */
  function RoundEnd(prevRoundOver: bool, stuck: nat, snap: Snapshot): (c: Option<EndCause>)
    ensures var conds := EndConditions(prevRoundOver, stuck, snap);
      && (c.Some? <==> true in conds)
      && (c.Some? ==> conds[Priority(c.value)])
      && (c.Some? ==> forall k :: 0 <= k < Priority(c.value) ==> !conds[k])
  {
    if !prevRoundOver && snap.isRoundOver && Conclusive(snap.fightResult) then Some(ResultFlag)
    else if stuck > StuckLimit then Some(TimerStuck)
    else if snap.player1.health == KnockedOut || snap.player2.health == KnockedOut then Some(KnockOut)
    else None
  }

  /** How (and whether) the round ends on this frame. */
  function Ending(s: State, snap: Snapshot): Option<EndCause> {
    if s.phase == Fighting then RoundEnd(s.prevRoundOver, Tick(s, snap), snap) else None
  }

  /** The fight result names the bot's own slot as the winner. */
  predicate OwnWin(slot: string, result: string) {
    (slot == "1" && result == "P1") || (slot == "2" && result == "P2")
  }

  predicate Inconclusive(result: string) {
    result == "TIME_OVER" || result == "DRAW" || result == ""
  }

  /** Whether the bot won the round that just ended. */
  function ResolveRound(slot: string, cause: EndCause, snap: Snapshot): (won: bool)
    ensures var bot := Me(snap, slot).health;
      var opp := Opponent(snap, slot).health;
      && (cause == TimerStuck ==> (won <==> bot > opp))
      && (cause != TimerStuck && OwnWin(slot, snap.fightResult) ==> won)
      && (cause != TimerStuck && !OwnWin(slot, snap.fightResult) && Inconclusive(snap.fightResult) ==>
            (won <==> bot > opp))
      && (cause != TimerStuck && !OwnWin(slot, snap.fightResult) && !Inconclusive(snap.fightResult) ==>
            (won <==> opp == KnockedOut && bot != KnockedOut))
  {
    var bot := Me(snap, slot).health;
    var opp := Opponent(snap, slot).health;
    if cause == TimerStuck then bot > opp
    else if OwnWin(slot, snap.fightResult) then true
    else if Inconclusive(snap.fightResult) then bot > opp
    else opp == KnockedOut && bot != KnockedOut
  }

  /** Damage credited for a health drop since the last fighting frame; a
      sentinel reading on either frame credits nothing. */
  function Drop(last: Health, now: Health): (d: nat)
    ensures d > 0 <==> last != KnockedOut && now != KnockedOut && now < last
    ensures d > 0 ==> d == last - now
  {
    if last != KnockedOut && now != KnockedOut && now < last then last - now else 0
  }

  function Distance(snap: Snapshot): nat {
    if snap.player1.x >= snap.player2.x then snap.player1.x - snap.player2.x
    else snap.player2.x - snap.player1.x
  }

  /** A frame of the character-select screen: random cursor moves for the
      first charSelectFrames frames, then one frame pressing start, then
      start released while waiting for the first round to begin. */
  function SelectStep(s: State, snap: Snapshot, dirs: Directions): (r: StepResult)
    requires s.phase == CharacterSelect
    ensures s.framesWaited < s.charSelectFrames ==>
      && r.next.phase == CharacterSelect
      && r.next.framesWaited == s.framesWaited + 1
      && r.sent.player.up == dirs.up && r.sent.player.down == dirs.down
      && r.sent.player.left == dirs.left && r.sent.player.right == dirs.right
    ensures s.framesWaited == s.charSelectFrames ==>
      r.next.phase == CharacterSelect && r.next.framesWaited == s.framesWaited + 1 && r.sent.player.start
    ensures s.framesWaited > s.charSelectFrames ==>
      r.next.framesWaited == s.framesWaited && !r.sent.player.start
    ensures r.next.phase == Fighting <==>
      s.framesWaited > s.charSelectFrames && RoundBegins(s.prevRoundStarted, snap)
    ensures r.next.phase == CharacterSelect || r.next.phase == Fighting
    ensures r.next.phase == Fighting ==>
      r.next.lastBotHealth == FullHealth && r.next.lastOpponentHealth == FullHealth && r.next.command == Fresh
    ensures r.next.phase == CharacterSelect ==> r.next.command == r.sent
    ensures r.next.history == s.history && r.next.idleFrames == s.idleFrames
    ensures r.next.timerStuckCount == s.timerStuckCount
    ensures r.next.damageDealt == s.damageDealt && r.next.damageTaken == s.damageTaken
    ensures r.next.healthBonus == s.healthBonus && r.next.timeBonus == s.timeBonus
    ensures r.next.distances == s.distances && r.next.charSelectFrames == s.charSelectFrames
    ensures r.next.prevRoundStarted == s.prevRoundStarted && r.next.prevRoundOver == s.prevRoundOver
  {
    var pad := s.command.player;
    if s.framesWaited < s.charSelectFrames then
      var c := s.command.(player := pad.(up := dirs.up, down := dirs.down, left := dirs.left, right := dirs.right));
      StepResult(s.(framesWaited := s.framesWaited + 1, command := c), c)
    else if s.framesWaited == s.charSelectFrames then
      var c := s.command.(player := pad.(start := true));
      StepResult(s.(framesWaited := s.framesWaited + 1, command := c), c)
    else
      // The command sent on this frame is the one the bot held before its
      // reset: it was picked up before the new round's command was made.
      var c := s.command.(player := pad.(start := false));
      if RoundBegins(s.prevRoundStarted, snap) then
        StepResult(s.(phase := Fighting, command := Fresh,
                      lastOpponentHealth := FullHealth, lastBotHealth := FullHealth), c)
      else
        StepResult(s.(command := c), c)
  }

  /** A frame between rounds: a new round is accepted only after more than
      IdleDwell idle frames. */
  function IdleStep(s: State, snap: Snapshot): (r: StepResult)
    requires s.phase == Idle
    ensures r.next.phase == Fighting <==>
      RoundBegins(s.prevRoundStarted, snap) && s.idleFrames + 1 > IdleDwell
    ensures r.next.phase == Idle || r.next.phase == Fighting
    ensures r.next.phase == Fighting ==>
      && r.next.lastBotHealth == FullHealth && r.next.lastOpponentHealth == FullHealth
      && r.next.command == Fresh && r.next.idleFrames == 0
    ensures r.next.phase == Idle ==> r.next.idleFrames == s.idleFrames + 1 && r.next.command == s.command
    ensures r.sent == r.next.command
    ensures r.next.history == s.history && r.next.framesWaited == s.framesWaited
    ensures r.next.timerStuckCount == s.timerStuckCount
    ensures r.next.damageDealt == s.damageDealt && r.next.damageTaken == s.damageTaken
    ensures r.next.healthBonus == s.healthBonus && r.next.timeBonus == s.timeBonus
    ensures r.next.distances == s.distances && r.next.charSelectFrames == s.charSelectFrames
    ensures r.next.prevRoundStarted == s.prevRoundStarted && r.next.prevRoundOver == s.prevRoundOver
  {
    var idle := s.idleFrames + 1;
    if RoundBegins(s.prevRoundStarted, snap) && idle > IdleDwell then
      var t := s.(phase := Fighting, command := Fresh, idleFrames := 0,
                  lastOpponentHealth := FullHealth, lastBotHealth := FullHealth);
      StepResult(t, t.command)
    else
      var t := s.(idleFrames := idle);
      StepResult(t, t.command)
  }

  /** The frame a round ends on: one outcome is recorded, a win earns the
      bot's remaining health and the timer above 48 as bonuses, and the
      match is over as soon as one outcome has happened twice. */
  function CloseRound(s: State, snap: Snapshot, slot: string, cause: EndCause): (r: StepResult)
    requires s.phase == Fighting
    ensures var won := ResolveRound(slot, cause, snap);
      && r.next.history == s.history + [if won then 1 else 0]
      && r.next.healthBonus == s.healthBonus + (if won then Me(snap, slot).health else 0)
      && r.next.timeBonus == s.timeBonus + (if won && snap.timer > TimeBonusBase then snap.timer - TimeBonusBase else 0)
    ensures r.next.phase == MatchOver <==> MatchDecided(r.next.history)
    ensures r.next.phase == Idle || r.next.phase == MatchOver
    ensures r.next.timerStuckCount == 0 && r.next.idleFrames == 0
    ensures r.sent == s.command && r.next.command == s.command
    ensures r.next.damageDealt == s.damageDealt && r.next.damageTaken == s.damageTaken
    ensures r.next.distances == s.distances
    ensures r.next.lastBotHealth == s.lastBotHealth && r.next.lastOpponentHealth == s.lastOpponentHealth
    ensures r.next.framesWaited == s.framesWaited && r.next.charSelectFrames == s.charSelectFrames
  {
    var won := ResolveRound(slot, cause, snap);
    var bot := Me(snap, slot).health;
    var h := s.history + [if won then 1 else 0];
    var t := s.(phase := if MatchDecided(h) then MatchOver else Idle,
                idleFrames := 0, timerStuckCount := 0, history := h,
                healthBonus := if won then s.healthBonus + bot else s.healthBonus,
                timeBonus := if won && snap.timer > TimeBonusBase then s.timeBonus + (snap.timer - TimeBonusBase)
                             else s.timeBonus);
    StepResult(t, s.command)
  }

  /** A fighting frame on which the round goes on: health drops since the
      last frame are credited, the last-health trackers take this frame's
      readings, the players' distance is recorded, and the bot's command
      comes from the network's answer. */
  function ContinueRound(s: State, snap: Snapshot, slot: string, prediction: Bot.Prediction): (r: StepResult)
    requires s.phase == Fighting
    ensures var bot := Me(snap, slot).health;
      var opp := Opponent(snap, slot).health;
      && r.next.damageDealt == s.damageDealt + Drop(s.lastOpponentHealth, opp)
      && r.next.damageTaken == s.damageTaken + Drop(s.lastBotHealth, bot)
      && r.next.lastBotHealth == bot && r.next.lastOpponentHealth == opp
    ensures r.next.distances == s.distances + [Distance(snap)]
    ensures r.sent == Bot.Fight(s.command, slot, prediction) && r.next.command == r.sent
    ensures r.next.phase == Fighting && r.next.history == s.history
    ensures r.next.healthBonus == s.healthBonus && r.next.timeBonus == s.timeBonus
    ensures r.next.timerStuckCount == s.timerStuckCount && r.next.idleFrames == s.idleFrames
    ensures r.next.framesWaited == s.framesWaited && r.next.charSelectFrames == s.charSelectFrames
  {
    var bot := Me(snap, slot).health;
    var opp := Opponent(snap, slot).health;
    var c := Bot.Fight(s.command, slot, prediction);
    var t := s.(damageDealt := s.damageDealt + Drop(s.lastOpponentHealth, opp),
                damageTaken := s.damageTaken + Drop(s.lastBotHealth, bot),
                lastBotHealth := bot, lastOpponentHealth := opp,
                distances := s.distances + [Distance(snap)],
                command := c);
    StepResult(t, c)
  }

  function FightStep(s: State, snap: Snapshot, slot: string, prediction: Bot.Prediction): StepResult
    requires s.phase == Fighting
  {
    match RoundEnd(s.prevRoundOver, s.timerStuckCount, snap)
    case Some(cause) => CloseRound(s, snap, slot, cause)
    case None => ContinueRound(s, snap, slot, prediction)
  }

  /** One frame of the controller loop. */
  function Step(s: State, slot: string, f: Frame): (r: StepResult)
    requires s.phase != MatchOver
    requires IsSlot(slot)
    ensures s.phase != Fighting ==> r.next.timerStuckCount == s.timerStuckCount
    ensures Ending(s, f.snap).Some? ==> r.next.timerStuckCount == 0
    ensures s.phase == Fighting && Ending(s, f.snap).None? && s.prevTimer.Some? ==>
      r.next.timerStuckCount == (if f.snap.timer == s.prevTimer.value then s.timerStuckCount + 1 else 0)
    ensures r.next.prevRoundStarted == f.snap.hasRoundStarted
    ensures r.next.prevRoundOver == f.snap.isRoundOver
    ensures r.next.prevTimer == Some(f.snap.timer)
    ensures s.history <= r.next.history
    ensures |r.next.history| == |s.history| + (if Ending(s, f.snap).Some? then 1 else 0)
    ensures s.damageDealt <= r.next.damageDealt && s.damageTaken <= r.next.damageTaken
    ensures s.healthBonus <= r.next.healthBonus && s.timeBonus <= r.next.timeBonus
    ensures s.distances <= r.next.distances
    ensures |r.next.distances| == |s.distances| + (if s.phase == Fighting && Ending(s, f.snap).None? then 1 else 0)
    ensures s.phase != Fighting || Ending(s, f.snap).Some? ==>
      r.next.damageDealt == s.damageDealt && r.next.damageTaken == s.damageTaken
  {
    var t := s.(timerStuckCount := Tick(s, f.snap));
    var r :=
      if s.phase == CharacterSelect then SelectStep(t, f.snap, f.dirs)
      else if s.phase == Idle then IdleStep(t, f.snap)
      else FightStep(t, f.snap, slot, f.prediction);
    StepResult(r.next.(prevRoundStarted := f.snap.hasRoundStarted,
                       prevRoundOver := f.snap.isRoundOver,
                       prevTimer := Some(f.snap.timer)),
               r.sent)
  }

  /** Every step of an unfinished match keeps the invariant. */
  lemma StepKeepsInv(s: State, slot: string, f: Frame)
    requires Inv(s) && s.phase != MatchOver && IsSlot(slot)
    ensures Inv(Step(s, slot, f).next)
  {
  }

  /** The machine enters FIGHTING exactly on a frame where a round begins
      (rising edge of "round started", round not over) and the current phase
      allows it: character select after the start press has been released,
      or more than IdleDwell idle frames. Both last-health trackers are then
      reset to full health. */
  lemma EnteringFight(s: State, slot: string, f: Frame)
    requires s.phase != MatchOver && IsSlot(slot)
    ensures var n := Step(s, slot, f).next;
      (s.phase != Fighting && n.phase == Fighting) <==>
        && RoundBegins(s.prevRoundStarted, f.snap)
        && ((s.phase == CharacterSelect && s.framesWaited > s.charSelectFrames)
            || (s.phase == Idle && s.idleFrames + 1 > IdleDwell))
    ensures var n := Step(s, slot, f).next;
      s.phase != Fighting && n.phase == Fighting ==>
        n.lastBotHealth == FullHealth && n.lastOpponentHealth == FullHealth
  {
  }

  /** The match is over exactly on the round end at which one outcome first
      reaches two occurrences. */
  lemma MatchTermination(s: State, slot: string, f: Frame)
    requires Inv(s) && s.phase != MatchOver && IsSlot(slot)
    ensures !MatchDecided(s.history)
    ensures var n := Step(s, slot, f).next;
      n.phase == MatchOver <==> Ending(s, f.snap).Some? && MatchDecided(n.history)
  {
  }

  /** Two won rounds at the start of a history decide the match. */
  lemma TwoWinsDecide(h: seq<int>)
    requires 2 <= |h| && h[0] == 1 && h[1] == 1
    ensures MatchDecided(h[..2])
  {
  }

  /** A best-of-three history: at most three rounds, at least two when the
      match is over, and the match is won exactly when its last round was. */
  lemma HistoryShape(s: State)
    requires Inv(s)
    ensures |s.history| <= 3
    ensures s.phase == MatchOver ==> 2 <= |s.history|
    ensures s.phase == MatchOver ==> (Finalize(s).wonMatch <==> s.history[|s.history| - 1] == 1)
  {
    var h := s.history;
    CountBits(h);
    if |h| > 0 {
      var p := h[..|h| - 1];
      var last := h[|h| - 1];
      assert h == p + [last];
      assert Bits(p);
      CountBits(p);
      CountAppend(p, last, 0);
      CountAppend(p, last, 1);
    }
  }

  /** Seen from slot "2" with the players (and the result string) exchanged,
      every round is resolved exactly as slot "1" resolves it. */
  lemma ResolveSymmetric(cause: EndCause, snap: Snapshot)
    ensures ResolveRound("1", cause, snap) == ResolveRound("2", cause, Swapped(snap))
  {
  }

  /** The controller loop over a stream of frames, stopping at MATCH_OVER. */
  function Run(s: State, slot: string, frames: seq<Frame>): (t: State)
    requires IsSlot(slot)
    ensures s.history <= t.history
    ensures s.damageDealt <= t.damageDealt && s.damageTaken <= t.damageTaken
    ensures s.healthBonus <= t.healthBonus && s.timeBonus <= t.timeBonus
    ensures s.distances <= t.distances
    ensures s.phase == MatchOver ==> t == s
    decreases |frames|
  {
    if |frames| == 0 || s.phase == MatchOver then s
    else Run(Step(s, slot, frames[0]).next, slot, frames[1..])
  }

  /** Running the loop from a state that satisfies the invariant only
      reaches states that satisfy it. */
  lemma {:induction false} RunKeepsInv(s: State, slot: string, frames: seq<Frame>)
    requires Inv(s) && IsSlot(slot)
    ensures Inv(Run(s, slot, frames))
    decreases |frames|
  {
    if |frames| > 0 && s.phase != MatchOver {
      StepKeepsInv(s, slot, frames[0]);
      RunKeepsInv(Step(s, slot, frames[0]).next, slot, frames[1..]);
    }
  }

  /** The character-select script: from any character-select state, a run of
      frames that does not go past the start press stays on the select screen
      and counts every frame. */
  lemma {:induction false} SelectScript(s: State, slot: string, frames: seq<Frame>)
    requires IsSlot(slot)
    requires s.phase == CharacterSelect
    requires s.framesWaited + |frames| <= s.charSelectFrames + 1
    ensures Run(s, slot, frames).phase == CharacterSelect
    ensures Run(s, slot, frames).framesWaited == s.framesWaited + |frames|
    decreases |frames|
  {
    if |frames| > 0 {
      SelectScript(Step(s, slot, frames[0]).next, slot, frames[1..]);
    }
  }

  /** No round can start during the first charSelectFrames + 1 frames. */
  lemma NoEarlyFight(charSelectFrames: nat, slot: string, frames: seq<Frame>)
    requires MinSelectFrames <= charSelectFrames <= MaxSelectFrames
    requires IsSlot(slot)
    requires |frames| <= charSelectFrames + 1
    ensures Run(Init(charSelectFrames), slot, frames).phase == CharacterSelect
  {
    SelectScript(Init(charSelectFrames), slot, frames);
  }

  /** A whole match from the first frame: every state reached satisfies the
      invariant, at most three rounds are played, and a finished match is won
      exactly when its last round was. */
  lemma MatchOutcome(charSelectFrames: nat, slot: string, frames: seq<Frame>)
    requires MinSelectFrames <= charSelectFrames <= MaxSelectFrames
    requires IsSlot(slot)
    ensures var t := Run(Init(charSelectFrames), slot, frames);
      && Inv(t)
      && |t.history| <= 3
      && (t.phase == MatchOver ==> (Finalize(t).wonMatch <==> t.history[|t.history| - 1] == 1))
  {
    RunKeepsInv(Init(charSelectFrames), slot, frames);
    HistoryShape(Run(Init(charSelectFrames), slot, frames));
  }

  // ---------------------------------------------------------------------
  // The results record

  function Sum(d: seq<nat>): nat {
    if |d| == 0 then 0 else Sum(d[..|d| - 1]) + d[|d| - 1]
  }

  /** The mean of the recorded distances, or 0 when none were recorded. */
  function Mean(d: seq<nat>): (m: real)
    ensures |d| == 0 ==> m == 0.0
    ensures |d| > 0 ==> m * |d| as real == Sum(d) as real
    ensures 0.0 <= m
  {
    if |d| == 0 then 0.0 else Sum(d) as real / |d| as real
  }

  lemma {:induction false} SumBound(d: seq<nat>, bound: nat)
    requires forall k :: 0 <= k < |d| ==> d[k] <= bound
    ensures Sum(d) <= |d| * bound
  {
    if |d| > 0 {
      SumBound(d[..|d| - 1], bound);
    }
  }

  /** The mean never exceeds a bound every recorded distance respects. */
  lemma MeanBound(d: seq<nat>, bound: nat)
    requires forall k :: 0 <= k < |d| ==> d[k] <= bound
    ensures Mean(d) <= bound as real
  {
    if |d| > 0 {
      SumBound(d, bound);
      QuotientBound(Sum(d) as real, |d| as real, bound as real);
    }
  }

  lemma QuotientBound(a: real, n: real, b: real)
    requires 0.0 < n && a <= n * b
    ensures a / n <= b
  {
  }

  /** The results record written once the match is over: the match is won
      exactly when two rounds were won. */
  function Finalize(s: State): (m: MatchResult)
    ensures m.wonMatch <==> Count(s.history, 1) >= 2
    ensures m.history == s.history
    ensures m.damageDealt == s.damageDealt && m.damageTaken == s.damageTaken
    ensures m.healthBonus == s.healthBonus && m.timeBonus == s.timeBonus
    ensures m.averageDistance == Mean(s.distances)
  {
    MatchResult(Count(s.history, 1) >= 2, s.history, s.damageDealt, s.damageTaken,
                s.healthBonus, s.timeBonus, Mean(s.distances))
  }
}
