/** The game's state and each of `ColorMemoryGame`'s operations as a function from the state
    before to the state after, with the properties the game promises proved about them. */
module GameRules {
  import opened Wrappers
  import opened Palette
  import opened Twists
  import opened Difficulty
  import opened Achievements
  import opened Profiles

  /** First level at which colour twists happen (on even levels). */
  const TwistLevel := 5
  /** Last level of the game; clearing it completes the game. */
  const MaxLevel := 50
  /** `gameSpeed` before any level has been tuned. */
  const StartSpeed := 1000

  /** Everything `ColorMemoryGame` keeps that the rules read or write. `player` is the session
      copy of the current player's profile and `players` the stored profile table. */
  datatype GameState = GameState(
    sequence: seq<Color>, playerSequence: seq<Color>,
    level: int, score: int, currentStep: int,
    isPlaying: bool, isPlayerTurn: bool,
    gameSpeed: int, speedBoostMode: bool, colorBlindMode: bool,
    colorMeanings: Meanings, achievements: seq<string>, highScore: int,
    gameStartTime: int, player: Option<Profile>, players: map<string, Profile>)

  /** The facts every operation relies on: the meanings are a permutation, level and score
      are in range, and `currentStep` counts the colours typed. */
  ghost predicate Settled(s: GameState) {
    IsPermutation(s.colorMeanings) && s.level >= 1 && s.score >= 0 &&
    s.currentStep == |s.playerSequence|
  }

  /** The game invariant: while a game is on, what the player typed is a prefix of the target. */
  ghost predicate Inv(s: GameState) {
    Settled(s) && (s.isPlaying ==> s.playerSequence <= s.sequence)
  }

  /** Both turn flags are up: clicks are judged. */
  predicate Active(s: GameState) {
    s.isPlaying && s.isPlayerTurn
  }

  /** The constructor followed by `setupGame`: achievements and high score come from the
      session profile, if any, and the meanings start as the identity. */
  function Initial(player: Option<Profile>, players: map<string, Profile>): (s: GameState)
    ensures Inv(s) && !s.isPlaying && !s.isPlayerTurn
    ensures s.sequence == [] && s.playerSequence == [] && s.level == 1 && s.score == 0
    ensures s.colorMeanings == Identity() && s.gameSpeed == StartSpeed
    ensures !s.speedBoostMode && !s.colorBlindMode
    ensures s.achievements == (if player.Some? then player.value.achievements else [])
    ensures s.highScore == (if player.Some? then player.value.highScore else 0)
  {
    GameState([], [], 1, 0, 0, false, false, StartSpeed, false, false, Identity(),
              if player.Some? then player.value.achievements else [],
              if player.Some? then player.value.highScore else 0,
              0, player, players)
  }

  /** `updatePlayerProgress`: when there is a session player with a stored record, one more
      game is recorded from the current level, score and achievements, and the session copy
      is replaced by the new record; otherwise nothing happens. */
  function ProgressSaved(s: GameState, now: int): (r: GameState)
    ensures r == s.(players := r.players, player := r.player)
    ensures s.player.None? || s.player.value.name !in s.players ==> r == s
    ensures s.player.Some? && s.player.value.name in s.players ==>
      var name := s.player.value.name;
      r.player.Some? && r.players == s.players[name := r.player.value] &&
      OneGameLater(s.players[name], r.player.value, s.level, s.score) &&
      r.player.value.achievements == s.achievements && r.player.value.lastPlayed == now &&
      r.player.value.totalPlayTime == s.players[name].totalPlayTime + (now - s.gameStartTime)
  {
    if s.player.None? || s.player.value.name !in s.players then s
    else
      var name := s.player.value.name;
      var q := ProgressRecorded(s.players[name], s.level, s.score, s.achievements,
                                now - s.gameStartTime, now);
      s.(players := s.players[name := q], player := Some(q))
  }

  /** `applyLevelDifficulty`: the flash speed of the level's band; the two modifier flags
      can only be switched on. */
  function Tuned(s: GameState): (r: GameState)
    ensures r == s.(gameSpeed := r.gameSpeed, speedBoostMode := r.speedBoostMode,
                    colorBlindMode := r.colorBlindMode)
    ensures s.level >= 1 ==> FastestSpeed <= r.gameSpeed <= 960
    ensures r.speedBoostMode <==> s.speedBoostMode || s.level >= 36
    ensures r.colorBlindMode <==> s.colorBlindMode || s.level >= 40
  {
    s.(gameSpeed := Speed(s.level),
       speedBoostMode := BoostAfter(s.level, s.speedBoostMode),
       colorBlindMode := ColorBlindAfter(s.level, s.colorBlindMode))
  }

  /** `nextLevel`: a fresh turn, one more colour (`Colors[newColor]`) at the end of the target,
      the level's tuning, and a twist on even levels from `TwistLevel` on. */
  function Advanced(s: GameState, newColor: nat, d: Draws): (r: GameState)
    requires newColor < |Colors| && ValidDraws(d) && Total(s.colorMeanings)
    ensures r.sequence == s.sequence + [Colors[newColor]]
    ensures r.playerSequence == [] && r.currentStep == 0 && !r.isPlayerTurn
    ensures r.level == s.level && r.score == s.score && r.isPlaying == s.isPlaying
    ensures r.achievements == s.achievements && r.highScore == s.highScore
    ensures r.player == s.player && r.players == s.players
    ensures r.gameSpeed == Speed(s.level)
    ensures Total(r.colorMeanings)
    ensures !(s.level >= TwistLevel && s.level % 2 == 0) ==> r.colorMeanings == s.colorMeanings
  {
    var t := s.(sequence := s.sequence + [Colors[newColor]], playerSequence := [],
                currentStep := 0, isPlayerTurn := false);
    var u := Tuned(t);
    if u.level >= TwistLevel && u.level % 2 == 0 then
      u.(colorMeanings := ApplyTwist(u.colorMeanings, ChooseTwist(u.level, d)))
    else u
  }

  /** The first half of `startGame`, before it records the game and calls `nextLevel`. */
  function Restarted(s: GameState, now: int): GameState {
    s.(sequence := [], level := 1, score := 0, isPlaying := true, gameSpeed := StartSpeed,
       gameStartTime := now, colorMeanings := Identity())
  }

  /** `startGame`. */
  function Started(s: GameState, now: int, newColor: nat, d: Draws): (r: GameState)
    requires newColor < |Colors| && ValidDraws(d)
    ensures Inv(r) && r.isPlaying && !r.isPlayerTurn
    ensures r.sequence == [Colors[newColor]] && r.playerSequence == [] && r.currentStep == 0
    ensures r.level == 1 && r.score == 0 && r.colorMeanings == Identity()
  {
    Advanced(ProgressSaved(Restarted(s, now), now), newColor, d)
  }

  /** `startPlayerTurn`, which is all that `playSequence` changes once its flashes are done. */
  function TurnStarted(s: GameState): GameState {
    s.(isPlayerTurn := true)
  }

  /** `replaySequence`: ignored unless a game is on; otherwise the sequence is played again. */
  function Replayed(s: GameState): (r: GameState)
    ensures !s.isPlaying ==> r == s
    ensures s.isPlaying ==> r == s.(isPlayerTurn := true)
  {
    if !s.isPlaying then s else TurnStarted(s.(isPlayerTurn := false))
  }

  /** `gameComplete`. */
  function Completed(s: GameState): GameState {
    s.(isPlaying := false, isPlayerTurn := false)
  }

  /** `gameOver`: both flags down, then the game is recorded. */
  function Lost(s: GameState, now: int): GameState {
    ProgressSaved(s.(isPlaying := false, isPlayerTurn := false), now)
  }

  /** The first half of `levelComplete`: the turn ends, the award for the level is added
      and the level increments. */
  function Scored(s: GameState): (r: GameState)
    ensures r == s.(isPlayerTurn := false, score := r.score, level := s.level + 1)
    ensures r.score == s.score + LevelAward(s.level, |s.sequence|, s.speedBoostMode).Total()
  {
    var points := LevelAward(s.level, |s.sequence|, s.speedBoostMode).Total();
    s.(isPlayerTurn := false, score := s.score + points, level := s.level + 1)
  }

  /** The rest of `levelComplete` when the game goes on: the catalogue `cat` is checked
      against the new level and score, and the session high score is raised. */
  function Rewarded(s: GameState, cat: seq<Achievement>): (r: GameState)
    ensures r == s.(achievements := r.achievements, highScore := r.highScore)
    ensures r.achievements == Evaluate(s.achievements, cat, s.level, s.score)
    ensures RaisedTo(s.highScore, s.score, r.highScore)
  {
    var v := s.(achievements := Evaluate(s.achievements, cat, s.level, s.score));
    if v.score > v.highScore then v.(highScore := v.score) else v
  }

  /** `levelComplete`: past `MaxLevel` the game is complete, otherwise it goes on rewarded. */
  function Cleared(s: GameState, cat: seq<Achievement>): GameState {
    var u := Scored(s);
    if u.level > MaxLevel then Completed(u) else Rewarded(u, cat)
  }

  /** What the player has typed once button `color` is pressed: the colour it means. */
  function Typed(s: GameState, color: Color): seq<Color>
    requires color in s.colorMeanings
  {
    s.playerSequence + [s.colorMeanings[color]]
  }

  function Stepped(s: GameState, color: Color): GameState
    requires color in s.colorMeanings
  {
    s.(playerSequence := Typed(s, color), currentStep := s.currentStep + 1)
  }

  /** `playerClick` on button `color`: ignored outside the player's turn; otherwise the
      colour the button means is typed, and a colour that differs from the target at that
      position (or lies past its end) ends the game, while typing the last colour of the
      target clears the level. Clicks never change the meanings. */
  function Clicked(s: GameState, color: Color, now: int, cat: seq<Achievement>): (r: GameState)
    requires color in s.colorMeanings
    ensures r.colorMeanings == s.colorMeanings && r.sequence == s.sequence
  {
    if !s.isPlayerTurn || !s.isPlaying then s
    else
      var actual := s.colorMeanings[color];
      var t := Stepped(s, color);
      var k := t.currentStep - 1;
      if !(0 <= k < |t.sequence|) || actual != t.sequence[k] then Lost(t, now)
      else if |t.playerSequence| == |t.sequence| then Cleared(t, cat)
      else t
  }

  /** A run of clicks, in order, at time `now`. */
  function Clicks(s: GameState, buttons: seq<Color>, now: int, cat: seq<Achievement>): (r: GameState)
    requires Total(s.colorMeanings)
    ensures r.colorMeanings == s.colorMeanings && r.sequence == s.sequence
    decreases |buttons|
  {
    if buttons == [] then s else Clicks(Clicked(s, buttons[0], now, cat), buttons[1..], now, cat)
  }

  // ---------------------------------------------------------------------------------------
  // startGame

  /** `startGame` resets the target, level, score, speed and meanings, then `nextLevel`
      leaves a one-colour target at level 1 with the first band's speed. The two modifier
      flags survive from the previous game. */
  lemma StartGameFacts(s: GameState, now: int, newColor: nat, d: Draws)
    requires newColor < |Colors| && ValidDraws(d)
    ensures var m := Restarted(s, now);
      m.sequence == [] && m.level == 1 && m.score == 0 && m.gameSpeed == StartSpeed &&
      m.isPlaying && m.colorMeanings == Identity()
    ensures var r := Started(s, now, newColor, d);
      Inv(r) && r.isPlaying && !r.isPlayerTurn &&
      r.sequence == [Colors[newColor]] && r.playerSequence == [] && r.currentStep == 0 &&
      r.level == 1 && r.score == 0 && r.gameSpeed == 960 && r.gameStartTime == now &&
      r.colorMeanings == Identity() &&
      r.speedBoostMode == s.speedBoostMode && r.colorBlindMode == s.colorBlindMode
  {
    var m := ProgressSaved(Restarted(s, now), now);
    assert Tuned(m.(sequence := m.sequence + [Colors[newColor]], playerSequence := [],
                    currentStep := 0, isPlayerTurn := false)).gameSpeed == 960;
  }

  /** When the session player has a stored record, starting a game already counts it as
      played, and losing it counts it again: one game, two increments. */
  lemma OneGameCountsTwice(s: GameState, t0: int, t1: int, newColor: nat, d: Draws)
    requires newColor < |Colors| && ValidDraws(d)
    requires s.player.Some? && s.player.value.name in s.players
    requires s.players[s.player.value.name].name == s.player.value.name
    ensures var name := s.player.value.name;
      var started := Started(s, t0, newColor, d);
      started.players[name].gamesPlayed == s.players[name].gamesPlayed + 1 &&
      Lost(started, t1).players[name].gamesPlayed == s.players[name].gamesPlayed + 2
  {
    var name := s.player.value.name;
    var restarted := Restarted(s, t0);
    assert restarted.player == s.player && restarted.players == s.players;
    var saved := ProgressSaved(restarted, t0);
    assert OneGameLater(s.players[name], saved.player.value, restarted.level, restarted.score);
    assert saved.players == s.players[name := saved.player.value];
    var started := Advanced(saved, newColor, d);
    var stopped := started.(isPlaying := false, isPlayerTurn := false);
    assert stopped.players == saved.players && stopped.player == saved.player;
    assert Lost(started, t1).players[name] == ProgressSaved(stopped, t1).player.value;
  }

  // ---------------------------------------------------------------------------------------
  // nextLevel and the twist

  /** `nextLevel` keeps the invariant: the twist, when there is one, keeps the meanings a
      permutation, and the fresh turn starts from an empty prefix. */
  lemma AdvancedKeepsInv(s: GameState, newColor: nat, d: Draws)
    requires Inv(s) && newColor < |Colors| && ValidDraws(d)
    ensures Inv(Advanced(s, newColor, d))
  {
    var r := Advanced(s, newColor, d);
    if s.level >= TwistLevel && s.level % 2 == 0 {
      TwistKeepsPermutation(s.colorMeanings, ChooseTwist(s.level, d));
      assert r.colorMeanings == ApplyTwist(s.colorMeanings, ChooseTwist(s.level, d));
    }
  }

  /** The twist `nextLevel` applies is the one of the level's band. */
  lemma AdvancedTwistBand(s: GameState, newColor: nat, d: Draws)
    requires newColor < |Colors| && ValidDraws(d) && Total(s.colorMeanings)
    requires s.level >= TwistLevel && s.level % 2 == 0
    ensures var t := ChooseTwist(s.level, d);
      Advanced(s, newColor, d).colorMeanings == ApplyTwist(s.colorMeanings, t) &&
      (t.SimpleSwap? <==> s.level < 15) && (t.Reverse? <==> s.level >= 35)
  {
  }

  // ---------------------------------------------------------------------------------------
  // playerClick

  /** Outside the player's turn a click changes nothing. */
  lemma ClickIgnored(s: GameState, color: Color, now: int, cat: seq<Achievement>)
    requires color in s.colorMeanings && !Active(s)
    ensures Clicked(s, color, now, cat) == s
  {
  }

  /** The turn so far: the step counter counts the typed colours, which match the target. */
  ghost predicate OnTrack(s: GameState) {
    s.currentStep == |s.playerSequence| && s.playerSequence <= s.sequence
  }

  /** One more colour keeps a prefix a prefix exactly when it is the target's next colour. */
  lemma ExtendPrefix(p: seq<Color>, x: Color, q: seq<Color>)
    requires p <= q
    ensures p + [x] <= q <==> |p| < |q| && q[|p|] == x
  {
    if p + [x] <= q {
      assert (p + [x])[|p|] == x;
    }
    if |p| < |q| && q[|p|] == x {
      assert forall i :: 0 <= i < |p + [x]| ==> (p + [x])[i] == q[i];
    }
  }

  /** A colour that breaks the match ends the game. */
  lemma ClickMismatch(s: GameState, color: Color, now: int, cat: seq<Achievement>)
    requires Active(s) && OnTrack(s) && color in s.colorMeanings
    requires !(Typed(s, color) <= s.sequence)
    ensures Clicked(s, color, now, cat) == Lost(Stepped(s, color), now)
  {
    ExtendPrefix(s.playerSequence, s.colorMeanings[color], s.sequence);
  }

  /** A matching colour short of the end continues the turn. */
  lemma ClickContinues(s: GameState, color: Color, now: int, cat: seq<Achievement>)
    requires Active(s) && OnTrack(s) && color in s.colorMeanings
    requires Typed(s, color) <= s.sequence && Typed(s, color) != s.sequence
    ensures Clicked(s, color, now, cat) == Stepped(s, color)
  {
    ExtendPrefix(s.playerSequence, s.colorMeanings[color], s.sequence);
  }

  /** The colour that completes the target clears the level. */
  lemma ClickCompletes(s: GameState, color: Color, now: int, cat: seq<Achievement>)
    requires Active(s) && OnTrack(s) && color in s.colorMeanings
    requires Typed(s, color) == s.sequence
    ensures Clicked(s, color, now, cat) == Cleared(Stepped(s, color), cat)
  {
    ExtendPrefix(s.playerSequence, s.colorMeanings[color], s.sequence);
  }

  /** During the turn the level advances exactly when the click completes the target, the
      game goes on exactly when what is typed is still a prefix (short of clearing the last
      level), and a wrong colour keeps level and score. */
  lemma ClickJudged(s: GameState, color: Color, now: int, cat: seq<Achievement>)
    requires Active(s) && OnTrack(s) && color in s.colorMeanings && s.level >= 1
    ensures var r := Clicked(s, color, now, cat);
      (r.level == s.level + 1 <==> Typed(s, color) == s.sequence) &&
      (!(Typed(s, color) <= s.sequence) ==> !r.isPlaying && r.level == s.level && r.score == s.score) &&
      (Typed(s, color) <= s.sequence && s.level < MaxLevel ==> r.isPlaying)
  {
    var t := Stepped(s, color);
    if !(Typed(s, color) <= s.sequence) {
      ClickMismatch(s, color, now, cat);
      LostFacts(t, now);
    } else if Typed(s, color) != s.sequence {
      ClickContinues(s, color, now, cat);
    } else {
      ClickCompletes(s, color, now, cat);
      ClearedScores(t, cat);
      if s.level < MaxLevel { ClearedBelowMax(t, cat); }
    }
  }

  /** Every click keeps the invariant. */
  lemma ClickKeepsInv(s: GameState, color: Color, now: int, cat: seq<Achievement>)
    requires Inv(s)
    ensures Inv(Clicked(s, color, now, cat))
  {
    if Active(s) {
      var t := Stepped(s, color);
      if !(Typed(s, color) <= s.sequence) {
        ClickMismatch(s, color, now, cat);
        LostKeepsInv(t, now);
      } else if Typed(s, color) != s.sequence {
        ClickContinues(s, color, now, cat);
      } else {
        ClickCompletes(s, color, now, cat);
        ClearedKeepsInv(t, cat);
      }
    }
  }

  lemma ClearedKeepsInv(s: GameState, cat: seq<Achievement>)
    requires Inv(s)
    ensures Inv(Cleared(s, cat))
  {
    ClearedScores(s, cat);
  }

  lemma TurnKeepsInv(s: GameState)
    ensures Inv(s) ==> Inv(TurnStarted(s)) && Inv(Replayed(s))
  {
  }

  /** Typing, from an empty start, buttons that mean the target colour by colour keeps the
      turn going through every proper prefix of the target. */
  lemma {:induction false} FollowingPrefix(s: GameState, buttons: seq<Color>, now: int, cat: seq<Achievement>, n: nat)
    requires Active(s) && OnTrack(s) && Total(s.colorMeanings) && s.playerSequence == []
    requires |buttons| == |s.sequence| && n < |s.sequence|
    requires forall i :: 0 <= i < |buttons| ==> s.colorMeanings[buttons[i]] == s.sequence[i]
    ensures var r := Clicks(s, buttons[..n], now, cat);
      r == s.(playerSequence := s.sequence[..n], currentStep := s.currentStep + n)
    decreases n
  {
    if n == 0 {
      assert buttons[..0] == [];
      assert s.sequence[..0] == [];
    } else {
      FollowingPrefix(s, buttons, now, cat, n - 1);
      var p := Clicks(s, buttons[..n - 1], now, cat);
      ClicksSplit(s, buttons[..n - 1], buttons[n - 1], now, cat);
      assert buttons[..n] == buttons[..n - 1] + [buttons[n - 1]];
      assert Typed(p, buttons[n - 1]) == s.sequence[..n] <= s.sequence;
      ClickContinues(p, buttons[n - 1], now, cat);
    }
  }

  /** Clicking a run of buttons and then one more is clicking the longer run. */
  lemma {:induction false} ClicksSplit(s: GameState, buttons: seq<Color>, last: Color, now: int, cat: seq<Achievement>)
    requires Total(s.colorMeanings)
    ensures Clicks(s, buttons + [last], now, cat) == Clicked(Clicks(s, buttons, now, cat), last, now, cat)
    decreases |buttons|
  {
    if buttons == [] {
      assert [last][1..] == [];
    } else {
      assert (buttons + [last])[1..] == buttons[1..] + [last];
      ClicksSplit(Clicked(s, buttons[0], now, cat), buttons[1..], last, now, cat);
    }
  }

  /** Buttons that mean the target colour by colour clear the level: the level goes up by
      one and the score strictly increases. */
  lemma CorrectInputClearsLevel(s: GameState, buttons: seq<Color>, now: int, cat: seq<Achievement>)
    requires Active(s) && OnTrack(s) && Total(s.colorMeanings) && s.level >= 1
    requires s.playerSequence == [] && s.sequence != []
    requires |buttons| == |s.sequence|
    requires forall i :: 0 <= i < |buttons| ==> s.colorMeanings[buttons[i]] == s.sequence[i]
    ensures var r := Clicks(s, buttons, now, cat);
      r.level == s.level + 1 && r.score > s.score && !r.isPlayerTurn
    ensures Clicks(s, buttons, now, cat) ==
      Cleared(s.(playerSequence := s.sequence, currentStep := s.currentStep + |s.sequence|), cat)
  {
    var n := |buttons| - 1;
    FollowingPrefix(s, buttons, now, cat, n);
    var p := Clicks(s, buttons[..n], now, cat);
    ClicksSplit(s, buttons[..n], buttons[n], now, cat);
    assert buttons[..n] + [buttons[n]] == buttons;
    assert Typed(p, buttons[n]) == s.sequence;
    ClickCompletes(p, buttons[n], now, cat);
    assert Stepped(p, buttons[n]) ==
      s.(playerSequence := s.sequence, currentStep := s.currentStep + |s.sequence|);
    ClearedScores(Stepped(p, buttons[n]), cat);
  }

  /** The button that means `target` under the meanings, searched in palette order. */
  function ButtonFor(m: Meanings, target: Color): (b: Color)
    requires IsPermutation(m)
    ensures b in m && m[b] == target
  {
    ColorsComplete();
    assert Meant(m, target);
    var v :| v in m && m[v] == target;
    assert v in Colors;
    FirstButton(m, target, Colors)
  }

  function FirstButton(m: Meanings, target: Color, candidates: seq<Color>): (b: Color)
    requires Total(m) && exists v :: v in candidates && m[v] == target
    ensures m[b] == target
  {
    if m[candidates[0]] == target then candidates[0]
    else
      assert forall v :: v in candidates && v != candidates[0] ==> v in candidates[1..];
      FirstButton(m, target, candidates[1..])
  }

  /** The winning input for a target under the meanings: the button for each colour. */
  function Answer(m: Meanings, target: seq<Color>): (buttons: seq<Color>)
    requires IsPermutation(m)
    ensures |buttons| == |target| && forall i :: 0 <= i < |target| ==> m[buttons[i]] == target[i]
  {
    seq(|target|, i requires 0 <= i < |target| => ButtonFor(m, target[i]))
  }

  /** Every level can be cleared, whatever the twists did to the meanings. */
  lemma EveryLevelClearable(s: GameState, now: int, cat: seq<Achievement>)
    requires Inv(s) && Active(s) && s.playerSequence == [] && s.sequence != []
    ensures Clicks(s, Answer(s.colorMeanings, s.sequence), now, cat).level == s.level + 1
  {
    CorrectInputClearsLevel(s, Answer(s.colorMeanings, s.sequence), now, cat);
  }

  // ---------------------------------------------------------------------------------------
  // levelComplete, gameComplete, gameOver

  /** `levelComplete` always pays the level's award and advances the level, and leaves the
      target, the meanings and the profiles alone. */
  lemma ClearedScores(s: GameState, cat: seq<Achievement>)
    requires s.level >= 1
    ensures var r := Cleared(s, cat);
      r.score == s.score + LevelAward(s.level, |s.sequence|, s.speedBoostMode).Total() &&
      r.score > s.score && r.level == s.level + 1 && !r.isPlayerTurn &&
      r.sequence == s.sequence && r.playerSequence == s.playerSequence &&
      r.currentStep == s.currentStep && r.colorMeanings == s.colorMeanings &&
      r.players == s.players && r.player == s.player
  {
  }

  /** Below `MaxLevel` the game goes on, the newly met achievements of `cat` are recorded
      and the session high score is raised to the new score. */
  lemma ClearedBelowMax(s: GameState, cat: seq<Achievement>)
    requires s.level < MaxLevel
    ensures var r := Cleared(s, cat);
      r.isPlaying == s.isPlaying &&
      r.achievements == Evaluate(s.achievements, cat, s.level + 1, r.score) &&
      RaisedTo(s.highScore, r.score, r.highScore)
  {
  }

  /** Clearing `MaxLevel` completes the game without checking achievements, raising the
      high score or recording the profile. */
  lemma ClearedAtMax(s: GameState, cat: seq<Achievement>)
    requires s.level >= MaxLevel
    ensures var r := Cleared(s, cat);
      !r.isPlaying && !r.isPlayerTurn && r.achievements == s.achievements &&
      r.highScore == s.highScore && r.players == s.players && r.player == s.player
  {
  }

  /** `gameOver` ends the game where it stood: level, score, target and meanings are kept,
      and only the profile record changes. */
  lemma LostFacts(s: GameState, now: int)
    ensures var r := Lost(s, now);
      !r.isPlaying && !r.isPlayerTurn && r.level == s.level && r.score == s.score &&
      r.sequence == s.sequence && r.playerSequence == s.playerSequence &&
      r.colorMeanings == s.colorMeanings && r.achievements == s.achievements &&
      r.highScore == s.highScore
  {
  }

  lemma LostKeepsInv(s: GameState, now: int)
    requires Settled(s)
    ensures Inv(Lost(s, now))
  {
  }

  /** A whole first level: once the one-colour target has been shown, pressing the button of
      that colour clears level 1 for 15 points (10 for the level, 5 for the one colour), and
      the achievements are checked at level 2 with 15 points. */
  lemma FirstLevelCleared(s: GameState, now: int, newColor: nat, d: Draws, cat: seq<Achievement>)
    requires newColor < |Colors| && ValidDraws(d) && !s.speedBoostMode
    ensures var r := TurnStarted(Started(s, now, newColor, d));
      var after := Clicked(r, Colors[newColor], now, cat);
      after.level == 2 && after.score == 15 && after.isPlaying &&
      after.achievements == Evaluate(r.achievements, cat, 2, 15)
  {
    StartGameFacts(s, now, newColor, d);
    var r := TurnStarted(Started(s, now, newColor, d));
    var c := Colors[newColor];
    assert Typed(r, c) == r.sequence;
    ClickCompletes(r, c, now, cat);
    var t := Stepped(r, c);
    ClearedScores(t, cat);
    ClearedBelowMax(t, cat);
    assert LevelAward(1, 1, false).Total() == 15;
  }

  /** With the game's catalogue the first level earns nothing yet: the first thresholds are
      level 5 and 1000 points. */
  lemma FirstLevelScenario(s: GameState, now: int, newColor: nat, d: Draws)
    requires newColor < |Colors| && ValidDraws(d) && !s.speedBoostMode
    ensures var r := TurnStarted(Started(s, now, newColor, d));
      var after := Clicked(r, Colors[newColor], now, Catalogue);
      after.level == 2 && after.score == 15 && after.achievements == r.achievements
  {
    FirstLevelCleared(s, now, newColor, d, Catalogue);
    NothingBeforeFirstThreshold(TurnStarted(Started(s, now, newColor, d)).achievements, 2, 15);
  }

  // ---------------------------------------------------------------------------------------
  // gameOver's new-record message

  /** The session high score keeps up with the score: while a game that began with session
      high score `h0` is on, `highScore` is the larger of `h0` and the score, because
      `levelComplete` raises it after every award and nothing else changes the score. */
  ghost predicate HighScoreTracks(s: GameState, h0: int) {
    s.isPlaying ==> s.highScore == Max(h0, s.score)
  }

  /** `startGame` sets the score to 0 and keeps the session high score. */
  lemma StartedTracks(s: GameState, now: int, newColor: nat, d: Draws)
    requires newColor < |Colors| && ValidDraws(d) && s.highScore >= 0
    ensures HighScoreTracks(Started(s, now, newColor, d), s.highScore)
  {
    StartGameFacts(s, now, newColor, d);
  }

  /** `nextLevel`, `startPlayerTurn` and `replaySequence` change neither score. */
  lemma AdvancedTracks(s: GameState, h0: int, newColor: nat, d: Draws)
    requires newColor < |Colors| && ValidDraws(d) && Total(s.colorMeanings)
    requires HighScoreTracks(s, h0)
    ensures HighScoreTracks(Advanced(s, newColor, d), h0)
    ensures HighScoreTracks(TurnStarted(s), h0) && HighScoreTracks(Replayed(s), h0)
  {
  }

  /** A click keeps the high score in step: an award only raises the score, and
      `levelComplete` then raises the high score to it. */
  lemma ClickedTracks(s: GameState, h0: int, color: Color, now: int, cat: seq<Achievement>)
    requires Inv(s) && HighScoreTracks(s, h0)
    ensures HighScoreTracks(Clicked(s, color, now, cat), h0)
  {
    if Active(s) {
      var t := Stepped(s, color);
      if Typed(s, color) <= s.sequence && Typed(s, color) == s.sequence {
        ClickCompletes(s, color, now, cat);
        ClearedScores(t, cat);
      }
    }
  }

  /** The new-record flag of `gameOver` as written: it reads the session profile after
      `updatePlayerProgress` has already raised its records to this game's values, and the
      session high score after `levelComplete` has raised it to the score. */
  function NewRecordAsWritten(s: GameState, now: int): bool {
    var t := Lost(s, now);
    if t.player.Some? then t.score > t.player.value.highScore || t.level > t.player.value.bestLevel
    else t.score > t.highScore
  }

  /** As written, a player with a stored record is never told of a new personal best. */
  lemma NewRecordAsWrittenNeverFires(s: GameState, now: int)
    requires s.player.Some? && s.player.value.name in s.players
    ensures !NewRecordAsWritten(s, now)
  {
  }

  /** As written, a guest is never told of a new high score either: during a game the
      session high score is never below the score. */
  lemma NewRecordAsWrittenGuestNeverFires(s: GameState, h0: int, now: int)
    requires s.player.None? && s.isPlaying && HighScoreTracks(s, h0)
    ensures !NewRecordAsWritten(s, now)
  {
  }

  /** While every button means its own colour, pressing the target's colours clears the
      level and `nextLevel` adds the colour `Colors[newColor]`; below the twist levels the
      meanings stay the identity, and the turn is handed to the player again. */
  lemma ClearAndAdvance(s: GameState, now: int, newColor: nat, d: Draws, cat: seq<Achievement>)
      returns (r: GameState)
    requires Inv(s) && Active(s) && s.playerSequence == [] && s.sequence != []
    requires s.colorMeanings == Identity() && s.level < TwistLevel - 1 && !s.speedBoostMode
    requires newColor < |Colors| && ValidDraws(d)
    ensures r == TurnStarted(Advanced(Clicks(s, s.sequence, now, cat), newColor, d))
    ensures Inv(r) && Active(r) && r.playerSequence == [] && r.sequence == s.sequence + [Colors[newColor]]
    ensures r.level == s.level + 1 && r.score == s.score + LevelAward(s.level, |s.sequence|, false).Total()
    ensures r.colorMeanings == Identity() && !r.speedBoostMode
    ensures r.player == s.player && r.players == s.players
  {
    CorrectInputClearsLevel(s, s.sequence, now, cat);
    var t := s.(playerSequence := s.sequence, currentStep := s.currentStep + |s.sequence|);
    ClearedScores(t, cat);
    ClearedBelowMax(t, cat);
    ClearedKeepsInv(t, cat);
    var c := Clicks(s, s.sequence, now, cat);
    AdvancedKeepsInv(c, newColor, d);
    r := TurnStarted(Advanced(c, newColor, d));
  }

  /** A new player "ann" begins a first game: the stored record has already counted it, with
      best level 1 and high score 0, and the one-colour target is red. */
  lemma AnnStarts(d: Draws) returns (r: GameState)
    requires ValidDraws(d)
    ensures var p := NewProfile("ann", 0);
      r == TurnStarted(Started(Initial(Some(p), map["ann" := p]), 1, 0, d))
    ensures Inv(r) && Active(r) && r.playerSequence == [] && r.sequence == [Red]
    ensures r.level == 1 && r.score == 0 && r.colorMeanings == Identity() && !r.speedBoostMode
    ensures r.player.Some? && r.player.value.name == "ann" && r.players == map["ann" := r.player.value]
    ensures r.player.value.bestLevel == 1 && r.player.value.highScore == 0
  {
    var p := NewProfile("ann", 0);
    var s0 := Initial(Some(p), map["ann" := p]);
    StartGameFacts(s0, 1, 0, d);
    var m := Restarted(s0, 1);
    assert m.player == Some(p) && m.players == map["ann" := p];
    var q := ProgressSaved(m, 1);
    assert q.players == map["ann" := q.player.value];
    r := TurnStarted(Started(s0, 1, 0, d));
  }

  /** A new player "ann" clears level 1 of a first game with the right button (15 points)
      and faces a red-red target at level 2. */
  lemma AnnReachesLevelTwo(d: Draws, cat: seq<Achievement>) returns (r1: GameState, r2: GameState)
    requires ValidDraws(d)
    ensures var p := NewProfile("ann", 0);
      r1 == TurnStarted(Started(Initial(Some(p), map["ann" := p]), 1, 0, d))
    ensures Total(r1.colorMeanings) && r2 == TurnStarted(Advanced(Clicks(r1, [Red], 2, cat), 0, d))
    ensures Inv(r2) && Active(r2) && r2.playerSequence == [] && r2.colorMeanings == Identity()
    ensures r2.level == 2 && r2.score == 15 && r2.sequence == [Red, Red] && !r2.speedBoostMode
    ensures r2.player.Some? && r2.player.value.name == "ann" && r2.players == map["ann" := r2.player.value]
    ensures r2.player.value.bestLevel == 1 && r2.player.value.highScore == 0
  {
    r1 := AnnStarts(d);
    assert Colors[0] == Red;
    r2 := ClearAndAdvance(r1, 2, 0, d, cat);
    assert LevelAward(1, 1, false).Total() == 15;
  }

  /** ... clears level 2 the same way (30 points) and faces a red-red-red target at level 3. */
  lemma AnnReachesLevelThree(d: Draws, cat: seq<Achievement>) returns (r1: GameState, r2: GameState, r3: GameState)
    requires ValidDraws(d)
    ensures var p := NewProfile("ann", 0);
      r1 == TurnStarted(Started(Initial(Some(p), map["ann" := p]), 1, 0, d))
    ensures Total(r1.colorMeanings) && r2 == TurnStarted(Advanced(Clicks(r1, [Red], 2, cat), 0, d))
    ensures Total(r2.colorMeanings) && r3 == TurnStarted(Advanced(Clicks(r2, [Red, Red], 3, cat), 0, d))
    ensures Inv(r3) && Active(r3) && r3.playerSequence == [] && r3.colorMeanings == Identity()
    ensures r3.level == 3 && r3.score == 45 && r3.sequence == [Red, Red, Red]
    ensures r3.player.Some? && r3.player.value.name == "ann" && r3.players == map["ann" := r3.player.value]
    ensures r3.player.value.bestLevel == 1 && r3.player.value.highScore == 0
  {
    r1, r2 := AnnReachesLevelTwo(d, cat);
    assert Colors[0] == Red;
    r3 := ClearAndAdvance(r2, 3, 0, d, cat);
    assert LevelAward(2, 2, false).Total() == 30;
  }

  /** A signed-in player whose first press of a level is wrong loses the game: `gameOver`
      raises the stored records to the level and score reached, and as written the message
      stays hidden even when a record was beaten. */
  lemma WrongFirstPress(s: GameState, button: Color, h0: int, now: int, cat: seq<Achievement>)
    requires Inv(s) && Active(s) && s.playerSequence == [] && s.sequence != []
    requires s.colorMeanings[button] != s.sequence[0]
    requires s.player.Some? && s.player.value.name in s.players
    requires s.players[s.player.value.name] == s.player.value
    ensures var name := s.player.value.name;
      var lost := Lost(Stepped(s, button), now);
      Clicked(s, button, now, cat) == lost &&
      lost.players[name].bestLevel == Max(s.player.value.bestLevel, s.level) &&
      lost.players[name].highScore == Max(s.player.value.highScore, s.score) &&
      !NewRecordAsWritten(Stepped(s, button), now) &&
      (NewRecord(Stepped(s, button), h0) <==> s.score > s.player.value.highScore || s.level > s.player.value.bestLevel)
  {
    var name := s.player.value.name;
    var wrong := Stepped(s, button);
    assert Typed(s, button) == [s.colorMeanings[button]];
    assert !(Typed(s, button) <= s.sequence) by { assert s.sequence[..1] == [s.sequence[0]]; }
    ClickMismatch(s, button, now, cat);
    NewRecordAsWrittenNeverFires(wrong, now);
    var lost := Lost(wrong, now);
    assert OneGameLater(s.players[name], lost.player.value, s.level, s.score);
    assert lost.players[name] == lost.player.value;
  }

  /** ... and then presses blue, which is wrong. `gameOver` raises ann's stored best level
      from 1 to 3 and high score from 0 to 45, yet the message is not shown; the intended
      flag is raised. */
  lemma NewRecordAsWrittenMissesFirstGame(d: Draws, cat: seq<Achievement>)
      returns (r1: GameState, r2: GameState, r3: GameState, wrong: GameState)
    requires ValidDraws(d)
    ensures var p := NewProfile("ann", 0);
      r1 == TurnStarted(Started(Initial(Some(p), map["ann" := p]), 1, 0, d))
    ensures Total(r1.colorMeanings) && r2 == TurnStarted(Advanced(Clicks(r1, [Red], 2, cat), 0, d))
    ensures Total(r2.colorMeanings) && r3 == TurnStarted(Advanced(Clicks(r2, [Red, Red], 3, cat), 0, d))
    ensures Total(r3.colorMeanings) && wrong == Stepped(r3, Blue)
    ensures r3.level == 3 && r3.score == 45 && r3.sequence == [Red, Red, Red]
    ensures r3.player.Some? && r3.player.value.bestLevel == 1 && r3.player.value.highScore == 0
    ensures Clicked(r3, Blue, 4, cat) == Lost(wrong, 4)
    ensures "ann" in Lost(wrong, 4).players
    ensures Lost(wrong, 4).players["ann"].bestLevel == 3 && Lost(wrong, 4).players["ann"].highScore == 45
    ensures !NewRecordAsWritten(wrong, 4) && NewRecord(wrong, 0)
  {
    r1, r2, r3 := AnnReachesLevelThree(d, cat);
    wrong := Stepped(r3, Blue);
    WrongFirstPress(r3, Blue, 0, 4, cat);
    assert Max(1, 3) == 3 && Max(0, 45) == 45;
  }

  /** The new-record flag as the message intends: a signed-in player's score and level are
      compared with the records as they stood before `gameOver` recorded this game, and a
      guest's score with the session high score `h0` the game began with. */
  function NewRecord(s: GameState, h0: int): bool {
    if s.player.Some? then s.score > s.player.value.highScore || s.level > s.player.value.bestLevel
    else s.score > h0
  }

  /** When the session profile is the stored record, the corrected flag is raised exactly
      when `gameOver` strictly raises that record's high score or best level. */
  lemma NewRecordMeansRaised(s: GameState, h0: int, now: int)
    requires s.player.Some? && s.player.value.name in s.players
    requires s.players[s.player.value.name] == s.player.value
    ensures var after := Lost(s, now).player.value;
      NewRecord(s, h0) <==> after.highScore > s.player.value.highScore || after.bestLevel > s.player.value.bestLevel
  {
  }

  /** For a guest, the corrected flag is raised exactly when this game lifted the session
      high score above the one the game began with. */
  lemma NewRecordGuestMeansRaised(s: GameState, h0: int)
    requires s.player.None? && s.isPlaying && HighScoreTracks(s, h0)
    ensures NewRecord(s, h0) <==> s.highScore > h0
  {
  }
}
