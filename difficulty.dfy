/** The difficulty schedule (flash speed per level band) and the level-completion award. */
module Difficulty {

  /** The flash speed of the last band, which is also the floor of the band before it. */
  const FastestSpeed := 150

  function Max(a: int, b: int): int {
    if a >= b then a else b
  }

  /** `applyLevelDifficulty`'s `gameSpeed`, in milliseconds per flash. */
  function Speed(level: int): (ms: int)
    ensures level >= 1 ==> FastestSpeed <= ms <= 960
  {
    if level <= 10 then Max(600, 1000 - level * 40)
    else if level <= 20 then Max(300, 600 - (level - 10) * 30)
    else if level <= 35 then Max(150, 300 - (level - 20) * 10)
    else FastestSpeed
  }

  /** The `max` floors never bind inside their bands: each band's formula already stays
      above its floor, so the speed is the unclamped linear formula. */
  lemma FloorsNeverBind(level: int)
    ensures 1 <= level <= 10 ==> Speed(level) == 1000 - level * 40
    ensures 11 <= level <= 20 ==> Speed(level) == 600 - (level - 10) * 30
    ensures 21 <= level <= 35 ==> Speed(level) == 300 - (level - 20) * 10
    ensures 36 <= level ==> Speed(level) == FastestSpeed
  {
  }

  /** Flashes never slow down as the level rises. */
  lemma SpeedNonIncreasing(a: int, b: int)
    requires a <= b
    ensures Speed(b) <= Speed(a)
  {
  }

  lemma SpeedSpotValues()
    ensures Speed(1) == 960 && Speed(10) == 600 && Speed(11) == 570
    ensures Speed(20) == 300 && Speed(21) == 290 && Speed(35) == 150 && Speed(36) == 150
  {
  }

  /** The speed-boost flag after `applyLevelDifficulty`: set by the last band, never cleared. */
  function BoostAfter(level: int, boost: bool): (r: bool)
    ensures r <==> boost || level >= 36
  {
    if level <= 35 then boost else true
  }

  /** The colour-blind flag after `applyLevelDifficulty`: set from level 40, never cleared. */
  function ColorBlindAfter(level: int, colorBlind: bool): (r: bool)
    ensures r <==> colorBlind || level >= 40
  {
    if level >= 40 then true else colorBlind
  }

  /** The five terms of `levelComplete`'s award, itemised as the bonus text shows them. */
  datatype Award = Award(levelBonus: int, sequenceBonus: int, speedBonus: int,
                         difficultyBonus: int, perfectBonus: int)
  {
    function Total(): int {
      levelBonus + sequenceBonus + speedBonus + difficultyBonus + perfectBonus
    }
  }

  /** The award for completing `level` with a target sequence of `length` colours. */
  function LevelAward(level: int, length: int, speedBoost: bool): (a: Award)
    ensures level >= 1 && length >= 0 ==> a.Total() >= 10 * level + 5 * length > 0
    ensures a.speedBonus != 0 <==> speedBoost && level != 0
    ensures a.difficultyBonus != 0 <==> level > 20
    ensures a.perfectBonus != 0 <==> level >= 10
  {
    Award(level * 10,
          length * 5,
          if speedBoost then level * 5 else 0,
          if level > 20 then (level - 20) * 10 else 0,
          if level >= 10 then 50 else 0)
  }

  lemma AwardExamples()
    ensures LevelAward(12, 12, false).Total() == 230
    ensures LevelAward(1, 1, false).Total() == 15
    ensures LevelAward(36, 36, true).Total() == 360 + 180 + 180 + 160 + 50
  {
  }

  /** Clearing a higher level (whose sequence is one colour longer) never pays less. */
  lemma AwardGrows(level: int, length: int, speedBoost: bool)
    requires level >= 1 && length >= 0
    ensures LevelAward(level + 1, length + 1, speedBoost).Total() > LevelAward(level, length, speedBoost).Total()
  {
  }
}
