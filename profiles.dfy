/** The stored player profile and the two record updates made to it after a game. */
module Profiles {

  /** A player's stored record. Times are milliseconds on the page's clock. */
  datatype Profile = Profile(name: string, bestLevel: int, highScore: int, gamesPlayed: int,
                             achievements: seq<string>, totalPlayTime: int,
                             createdAt: int, lastPlayed: int)

  /** `next` is what "raise `current` to `candidate` if it is larger" leaves: the maximum. */
  ghost predicate RaisedTo(current: int, candidate: int, next: int) {
    next >= current && next >= candidate && (next == current || next == candidate)
  }

  function Raised(current: int, candidate: int): (r: int)
    ensures RaisedTo(current, candidate, r)
  {
    if candidate > current then candidate else current
  }

  /** The counters a profile never lets go negative. */
  ghost predicate Sane(p: Profile) {
    p.bestLevel >= 0 && p.highScore >= 0 && p.gamesPlayed >= 0
  }

  /** The record `createPlayer` stores for a new name at time `now`. */
  function NewProfile(name: string, now: int): (p: Profile)
    ensures Sane(p) && p.name == name
    ensures p.bestLevel == 0 && p.highScore == 0 && p.gamesPlayed == 0 && p.totalPlayTime == 0
    ensures p.achievements == [] && p.createdAt == now && p.lastPlayed == now
  {
    Profile(name, 0, 0, 0, [], 0, now, now)
  }

  /** `q` is `p` after one more game ending at `level` with `score`: one more game played,
      both records raised to the game's values, identity kept. */
  ghost predicate OneGameLater(p: Profile, q: Profile, level: int, score: int) {
    q.name == p.name && q.createdAt == p.createdAt &&
    q.gamesPlayed == p.gamesPlayed + 1 &&
    RaisedTo(p.bestLevel, level, q.bestLevel) && RaisedTo(p.highScore, score, q.highScore)
  }

  /** The game's `updatePlayerProgress` record update: the game's achievements replace the
      stored ones and `elapsed` is added to the play time. */
  function ProgressRecorded(p: Profile, level: int, score: int, achievements: seq<string>,
                            elapsed: int, now: int): (q: Profile)
    ensures OneGameLater(p, q, level, score)
    ensures q.achievements == achievements && q.lastPlayed == now
    ensures q.totalPlayTime == p.totalPlayTime + elapsed
  {
    p.(gamesPlayed := p.gamesPlayed + 1,
       bestLevel := Raised(p.bestLevel, level),
       highScore := Raised(p.highScore, score),
       achievements := achievements,
       lastPlayed := now,
       totalPlayTime := p.totalPlayTime + elapsed)
  }

  /** `UserManager.updatePlayerStats`' record update: achievements and play time are kept. */
  function StatsUpdated(p: Profile, level: int, score: int, now: int): (q: Profile)
    ensures OneGameLater(p, q, level, score)
    ensures q.achievements == p.achievements && q.totalPlayTime == p.totalPlayTime
    ensures q.lastPlayed == now
  {
    p.(gamesPlayed := p.gamesPlayed + 1,
       bestLevel := Raised(p.bestLevel, level),
       highScore := Raised(p.highScore, score),
       lastPlayed := now)
  }

  /** Both updates keep a sane profile sane, whatever the game's values. */
  lemma UpdatesKeepSane(p: Profile, level: int, score: int, achievements: seq<string>,
                        elapsed: int, now: int)
    requires Sane(p)
    ensures Sane(ProgressRecorded(p, level, score, achievements, elapsed, now))
    ensures Sane(StatsUpdated(p, level, score, now))
  {
  }

  /** One finished game, as `updatePlayerStats` receives it. */
  datatype Game = Game(level: int, score: int, at: int)

  /** The profile after `updatePlayerStats` has been called for each game in turn. */
  function AfterGames(p: Profile, games: seq<Game>): Profile
    decreases |games|
  {
    if games == [] then p
    else AfterGames(StatsUpdated(p, games[0].level, games[0].score, games[0].at), games[1..])
  }

  /** Over any run of games the count grows by the number of games, and the best level and
      high score are the maxima of the old records and every game's values. */
  lemma {:induction false} AfterGamesRecords(p: Profile, games: seq<Game>)
    ensures var q := AfterGames(p, games);
      q.name == p.name && q.gamesPlayed == p.gamesPlayed + |games| &&
      q.bestLevel >= p.bestLevel && q.highScore >= p.highScore &&
      (forall g :: g in games ==> q.bestLevel >= g.level && q.highScore >= g.score) &&
      (q.bestLevel == p.bestLevel || exists g :: g in games && q.bestLevel == g.level) &&
      (q.highScore == p.highScore || exists g :: g in games && q.highScore == g.score)
    decreases |games|
  {
    if games != [] {
      var p' := StatsUpdated(p, games[0].level, games[0].score, games[0].at);
      AfterGamesRecords(p', games[1..]);
      assert games == [games[0]] + games[1..];
      var q := AfterGames(p, games);
      assert q == AfterGames(p', games[1..]);
      if q.bestLevel != p.bestLevel && q.bestLevel != p'.bestLevel {
        var g :| g in games[1..] && q.bestLevel == g.level;
        assert g in games;
      }
      if q.highScore != p.highScore && q.highScore != p'.highScore {
        var g :| g in games[1..] && q.highScore == g.score;
        assert g in games;
      }
    }
  }
}
