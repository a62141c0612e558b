/** `ColorMemoryGame`: the game object, whose methods change its fields in place. Each
    method is proved to leave the fields as the corresponding function of `GameRules`
    says, so everything proved there holds of the object. */
module ColorMemory {
  import opened Wrappers
  import opened Seqs
  import opened Palette
  import opened Twists
  import opened Difficulty
  import opened Achievements
  import opened Profiles
  import opened GameRules

  class ColorMemoryGame {
    var sequence: seq<Color>
    var playerSequence: seq<Color>
    var level: int
    var score: int
    var currentStep: int
    var isPlaying: bool
    var isPlayerTurn: bool
    var gameSpeed: int
    var speedBoostMode: bool
    var colorBlindMode: bool
    var colorMeanings: Meanings
    var achievements: seq<string>
    var highScore: int
    var gameStartTime: int
    /** The session copy of the current player's profile, if a player is signed in. */
    var currentPlayer: Option<Profile>
    /** The stored profile table the game reads and writes back. */
    var storedPlayers: map<string, Profile>
    /** The achievement list `checkAchievements` walks; the constructor sets it to `Catalogue`. */
    const achievementList: seq<Achievement>

    ghost function State(): GameState
      reads this
    {
      GameState(sequence, playerSequence, level, score, currentStep, isPlaying, isPlayerTurn,
                gameSpeed, speedBoostMode, colorBlindMode, colorMeanings, achievements,
                highScore, gameStartTime, currentPlayer, storedPlayers)
    }

    ghost predicate Valid()
      reads this
    {
      Inv(State())
    }

    /** The constructor, including `setupGame`'s reset of the meanings. */
    constructor (session: Option<Profile>, stored: map<string, Profile>)
      ensures State() == Initial(session, stored) && Valid()
      ensures achievementList == Catalogue
    {
      sequence := [];
      playerSequence := [];
      level := 1;
      score := 0;
      isPlaying := false;
      isPlayerTurn := false;
      currentStep := 0;
      gameSpeed := StartSpeed;
      colorMeanings := map[];
      speedBoostMode := false;
      colorBlindMode := false;
      gameStartTime := 0;
      currentPlayer := session;
      storedPlayers := stored;
      achievementList := Catalogue;
      achievements := if session.Some? then session.value.achievements else [];
      highScore := if session.Some? then session.value.highScore else 0;
      new;
      ResetColorMeanings();
    }

    /** `resetColorMeanings`: every palette colour is made to mean itself. The map is built
        colour by colour and written back once. */
    method ResetColorMeanings()
      modifies this
      ensures State() == old(State()).(colorMeanings := Identity())
    {
      var meanings := colorMeanings;
      var i := 0;
      while i < |Colors|
        invariant 0 <= i <= |Colors|
        invariant AgreesUpTo(meanings, Identity(), i)
        modifies {}
      {
        AgreesStep(meanings, Identity(), i);
        meanings := meanings[Colors[i] := Colors[i]];
        i := i + 1;
      }
      AgreesAll(meanings, Identity());
      colorMeanings := meanings;
    }

    /** `startGame`. */
    method StartGame(now: int, newColor: nat, d: Draws)
      requires newColor < |Colors| && ValidDraws(d)
      modifies this
      ensures State() == Started(old(State()), now, newColor, d)
      ensures Valid()
    {
      ResetRound(now);
      if currentPlayer.Some? {
        UpdatePlayerProgress(now);
      }
      NextLevel(newColor, d);
      StartGameFacts(old(State()), now, newColor, d);
    }

    /** The resets `startGame` performs before it records the game: target, level, score,
        the playing flag, speed, start time and meanings. */
    method ResetRound(now: int)
      modifies this
      ensures State() == Restarted(old(State()), now)
    {
      sequence := [];
      level := 1;
      score := 0;
      isPlaying := true;
      gameSpeed := StartSpeed;
      gameStartTime := now;
      assert unchanged(this`playerSequence, this`currentStep, this`isPlayerTurn, this`speedBoostMode,
                       this`colorBlindMode, this`colorMeanings, this`achievements, this`highScore,
                       this`currentPlayer, this`storedPlayers);
      ResetColorMeanings();
    }

    /** `updatePlayerProgress`. */
    method UpdatePlayerProgress(now: int)
      modifies this
      ensures State() == ProgressSaved(old(State()), now)
    {
      if currentPlayer.None? {
        return;
      }
      var name := currentPlayer.value.name;
      if name in storedPlayers {
        var record := ProgressRecorded(storedPlayers[name], level, score, achievements,
                                       now - gameStartTime, now);
        storedPlayers := storedPlayers[name := record];
        currentPlayer := Some(record);
      }
    }

    /** `nextLevel`, with the random colour given as its palette index. */
    method NextLevel(newColor: nat, d: Draws)
      requires newColor < |Colors| && ValidDraws(d) && Total(colorMeanings)
      modifies this
      ensures State() == Advanced(old(State()), newColor, d)
      ensures old(Valid()) ==> Valid()
    {
      if Valid() {
        AdvancedKeepsInv(State(), newColor, d);
      }
      BeginLevel(Colors[newColor]);
      ApplyLevelDifficulty();
      if level >= TwistLevel && level % 2 == 0 {
        var _ := AddColorTwist(d);
      }
    }

    /** The start of `nextLevel`: a fresh turn, and `color` pushed onto the target. */
    method BeginLevel(color: Color)
      modifies this
      ensures State() == old(State()).(sequence := old(sequence) + [color], playerSequence := [],
                                       currentStep := 0, isPlayerTurn := false)
    {
      playerSequence := [];
      currentStep := 0;
      isPlayerTurn := false;
      sequence := sequence + [color];
      assert unchanged(this`level, this`score, this`isPlaying, this`gameSpeed, this`speedBoostMode,
                       this`colorBlindMode, this`colorMeanings, this`achievements, this`highScore,
                       this`gameStartTime, this`currentPlayer, this`storedPlayers);
    }

    /** `applyLevelDifficulty`. */
    method ApplyLevelDifficulty()
      modifies this
      ensures State() == Tuned(old(State()))
    {
      if level <= 10 {
        gameSpeed := Max(600, 1000 - level * 40);
      } else if level <= 20 {
        gameSpeed := Max(300, 600 - (level - 10) * 30);
      } else if level <= 35 {
        gameSpeed := Max(150, 300 - (level - 20) * 10);
      } else {
        gameSpeed := 150;
        speedBoostMode := true;
      }
      if level >= 40 {
        colorBlindMode := true;
      }
    }

    /** `addColorTwist`: the twist of the level's band, returned with the colours it used. */
    method AddColorTwist(d: Draws) returns (t: Twist)
      requires ValidDraws(d) && Total(colorMeanings)
      modifies this
      ensures t == ChooseTwist(old(level), d)
      ensures State() == old(State()).(colorMeanings := ApplyTwist(old(colorMeanings), t))
    {
      if level < 15 {
        var color1, color2 := SimpleColorSwap(d.first, d.second);
        t := SimpleSwap(color1, color2);
      } else if level < 25 {
        var color1, color2, color3 := ChainColorSwap(d.first, d.second, d.third);
        t := ChainSwap(color1, color2, color3);
      } else if level < 35 {
        ShuffleAllColors(d.order);
        t := Shuffle(d.order);
      } else {
        ReverseColorMappings();
        t := Reverse;
      }
    }

    /** `simpleColorSwap`, with the two random indices given. */
    method SimpleColorSwap(i: nat, j: nat) returns (color1: Color, color2: Color)
      requires i < |Colors| && j < |Colors| - 1 && Total(colorMeanings)
      modifies this
      ensures (color1, color2) == PickTwo(i, j)
      ensures State() == old(State()).(colorMeanings := Swapped(old(colorMeanings), color1, color2))
    {
      var availableColors := Colors;
      color1 := availableColors[i];
      availableColors := RemoveAt(availableColors, IndexOf(availableColors, color1));
      color2 := availableColors[j];
      var temp := colorMeanings[color1];
      colorMeanings := colorMeanings[color1 := colorMeanings[color2]];
      colorMeanings := colorMeanings[color2 := temp];
    }

    /** `chainColorSwap`, with the three random indices given. */
    method ChainColorSwap(i: nat, j: nat, k: nat) returns (color1: Color, color2: Color, color3: Color)
      requires i < |Colors| && j < |Colors| - 1 && k < |Colors| - 2 && Total(colorMeanings)
      modifies this
      ensures (color1, color2, color3) == PickThree(i, j, k)
      ensures State() == old(State()).(colorMeanings := Rotated(old(colorMeanings), color1, color2, color3))
    {
      ColorsDistinct();
      IndexOfDistinct(Colors, i);
      RemoveAtDistinct(Colors, i);
      var availableColors := Colors;
      color1 := availableColors[i];
      availableColors := RemoveAt(availableColors, IndexOf(availableColors, color1));
      color2 := availableColors[j];
      IndexOfDistinct(availableColors, j);
      availableColors := RemoveAt(availableColors, IndexOf(availableColors, color2));
      color3 := availableColors[k];
      var temp := colorMeanings[color1];
      colorMeanings := colorMeanings[color1 := colorMeanings[color2]];
      colorMeanings := colorMeanings[color2 := colorMeanings[color3]];
      colorMeanings := colorMeanings[color3 := temp];
    }

    /** `shuffleAllColors`, with the outcome of the random sort given as `order`. */
    method ShuffleAllColors(order: seq<Color>)
      requires IsArrangement(order)
      modifies this
      ensures State() == old(State()).(colorMeanings := Arranged(order))
    {
      var meanings := ShuffleMeanings(colorMeanings, order);
      ghost var s0 := State();
      assert s0 == old(State());
      colorMeanings := meanings;
      assert State() == s0.(colorMeanings := meanings);
    }

    /** `reverseColorMappings`. */
    method ReverseColorMappings()
      requires Total(colorMeanings)
      modifies this
      ensures State() == old(State()).(colorMeanings := Squared(old(colorMeanings)))
    {
      var meanings := ReverseMeanings(colorMeanings);
      ghost var s0 := State();
      assert s0 == old(State());
      colorMeanings := meanings;
      assert State() == s0.(colorMeanings := meanings);
    }

    /** `startPlayerTurn`. */
    method StartPlayerTurn()
      modifies this
      ensures State() == TurnStarted(old(State()))
    {
      isPlayerTurn := true;
    }

    /** `playSequence`, once the flashes have been shown. */
    method PlaySequence()
      modifies this
      ensures State() == TurnStarted(old(State()))
    {
      StartPlayerTurn();
    }

    /** `playerClick` on the button of colour `color`, at time `now`. */
    method PlayerClick(color: Color, now: int)
      requires Valid()
      modifies this
      ensures State() == Clicked(old(State()), color, now, achievementList)
      ensures Valid()
    {
      ClickKeepsInv(State(), color, now, achievementList);
      if !isPlayerTurn || !isPlaying {
        return;
      }
      var actualColor := colorMeanings[color];
      playerSequence := playerSequence + [actualColor];
      currentStep := currentStep + 1;
      var k := currentStep - 1;
      if !(0 <= k < |sequence|) || actualColor != sequence[k] {
        var _ := GameOver(now);
        return;
      }
      if |playerSequence| == |sequence| {
        LevelComplete();
      }
    }

    /** `levelComplete`. */
    method LevelComplete()
      modifies this
      ensures State() == Cleared(old(State()), achievementList)
      ensures old(Valid()) ==> Valid()
    {
      if Valid() {
        ClearedKeepsInv(State(), achievementList);
      }
      AwardLevel();
      if level > MaxLevel {
        GameComplete();
        return;
      }
      var _ := CheckAchievements();
      if score > highScore {
        highScore := score;
      }
    }

    /** The start of `levelComplete`: the turn ends, the level's award is added to the score
        and the level increments. */
    method AwardLevel()
      modifies this
      ensures State() == Scored(old(State()))
    {
      isPlayerTurn := false;
      var award := LevelAward(level, |sequence|, speedBoostMode);
      score := score + award.Total();
      level := level + 1;
      assert unchanged(this`sequence, this`playerSequence, this`currentStep, this`isPlaying,
                       this`gameSpeed, this`speedBoostMode, this`colorBlindMode, this`colorMeanings,
                       this`achievements, this`highScore, this`gameStartTime, this`currentPlayer,
                       this`storedPlayers);
    }

    /** `gameComplete`. */
    method GameComplete()
      modifies this
      ensures State() == Completed(old(State()))
    {
      isPlaying := false;
      isPlayerTurn := false;
    }

    /** `gameOver`. The new-record flag is read, as in the code, after the game has been
        recorded (`NewRecord` is the flag the message intends). */
    method GameOver(now: int) returns (newRecord: bool)
      modifies this
      ensures State() == Lost(old(State()), now)
      ensures newRecord == NewRecordAsWritten(old(State()), now)
      ensures old(Settled(State())) ==> Valid()
    {
      if Settled(State()) {
        LostKeepsInv(State(), now);
      }
      isPlaying := false;
      isPlayerTurn := false;
      UpdatePlayerProgress(now);
      newRecord := if currentPlayer.Some?
        then score > currentPlayer.value.highScore || level > currentPlayer.value.bestLevel
        else score > highScore;
    }

    /** `replaySequence`. */
    method ReplaySequence()
      modifies this
      ensures State() == Replayed(old(State()))
      ensures old(Valid()) ==> Valid()
    {
      TurnKeepsInv(State());
      if !isPlaying {
        return;
      }
      isPlayerTurn := false;
      PlaySequence();
    }

    /** `checkAchievements`: returns the entries unlocked by this pass, in catalogue order. */
    method CheckAchievements() returns (newAchievements: seq<Achievement>)
      modifies this
      ensures newAchievements == Unlocked(old(achievements), achievementList, level, score)
      ensures State() == old(State()).(achievements := Evaluate(old(achievements), achievementList, level, score))
    {
      var ids;
      ids, newAchievements := CheckPass(achievements, achievementList, level, score);
      ghost var s0 := State();
      assert s0 == old(State());
      achievements := ids;
      assert State() == s0.(achievements := ids);
    }
  }
}
