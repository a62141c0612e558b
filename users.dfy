/** The player table of `UserManager` and the name checks of `submitPlayerName`. */
module Users {
  import opened Wrappers
  import opened Profiles

  // ---------------------------------------------------------------------------------------
  // Trimming and the name checks

  /** The characters `String.prototype.trim` strips: the ECMAScript WhiteSpace and
      LineTerminator code points. */
  predicate IsSpace(c: char) {
    c == '\U{0009}' || c == '\U{000A}' || c == '\U{000B}' || c == '\U{000C}' ||
    c == '\U{000D}' || c == '\U{0020}' || c == '\U{00A0}' || c == '\U{1680}' ||
    ('\U{2000}' <= c <= '\U{200A}') || c == '\U{2028}' || c == '\U{2029}' ||
    c == '\U{202F}' || c == '\U{205F}' || c == '\U{3000}' || c == '\U{FEFF}'
  }

  /** Where the white space that starts at `i` ends: every character from `i` up to the
      result is white space, and the character at the result is not. */
  function LeadEnd(s: string, i: nat): (k: nat)
    requires i <= |s|
    ensures i <= k <= |s|
    ensures forall m :: i <= m < k ==> IsSpace(s[m])
    ensures k == |s| || !IsSpace(s[k])
    decreases |s| - i
  {
    if i < |s| && IsSpace(s[i]) then LeadEnd(s, i + 1) else i
  }

  /** Where the white space that ends at `j` starts, looking no further back than `lo`: every
      character from the result up to `j` is white space, and the one before it is not. */
  function TrailStart(s: string, lo: nat, j: nat): (k: nat)
    requires lo <= j <= |s|
    ensures lo <= k <= j
    ensures forall m :: k <= m < j ==> IsSpace(s[m])
    ensures k == lo || !IsSpace(s[k - 1])
    decreases j - lo
  {
    if lo < j && IsSpace(s[j - 1]) then TrailStart(s, lo, j - 1) else j
  }

  /** `String.prototype.trim`: the text between the leading and the trailing white space. */
  function Trim(s: string): string {
    var i := LeadEnd(s, 0);
    s[i..TrailStart(s, i, |s|)]
  }

  /** The trimmed string is the slice of `s` that starts at `i`: everything before and after
      it is white space, and it neither starts nor ends with white space. */
  lemma TrimIsSlice(s: string) returns (i: nat)
    ensures i + |Trim(s)| <= |s| && Trim(s) == s[i..i + |Trim(s)|]
    ensures forall k :: 0 <= k < i ==> IsSpace(s[k])
    ensures forall k :: i + |Trim(s)| <= k < |s| ==> IsSpace(s[k])
    ensures Trim(s) == [] || (!IsSpace(Trim(s)[0]) && !IsSpace(Trim(s)[|Trim(s)| - 1]))
  {
    i := LeadEnd(s, 0);
    var j := TrailStart(s, i, |s|);
    assert Trim(s) == s[i..j];
    if i < j {
      assert Trim(s)[0] == s[i];
      assert Trim(s)[|Trim(s)| - 1] == s[j - 1];
    }
  }

  /** A string that neither starts nor ends with white space, with only white space around
      it, is what trimming the whole gives: the slice in `TrimIsSlice` is the only one. */
  lemma {:induction false} TrimUnique(s: string, i: nat, j: nat)
    requires i < j <= |s|
    requires !IsSpace(s[i]) && !IsSpace(s[j - 1])
    requires forall k :: 0 <= k < i ==> IsSpace(s[k])
    requires forall k :: j <= k < |s| ==> IsSpace(s[k])
    ensures Trim(s) == s[i..j]
  {
    var a := LeadEnd(s, 0);
    assert a == i;
    var b := TrailStart(s, a, |s|);
    assert b == j;
  }

  /** Trimming twice is trimming once. */
  lemma TrimIdempotent(s: string)
    ensures Trim(Trim(s)) == Trim(s)
  {
    var r := Trim(s);
    var _ := TrimIsSlice(s);
    if r != [] {
      TrimUnique(r, 0, |r|);
      assert r[0..|r|] == r;
    }
  }

  /** What `submitPlayerName` makes of the typed text. */
  datatype NameVerdict = EmptyName | TooShort | Accepted(name: string)

  /** The checks of `submitPlayerName` on the trimmed text: nothing left, fewer than two
      characters, or a name to select. */
  function CheckName(input: string): (v: NameVerdict)
    ensures v.EmptyName? <==> Trim(input) == []
    ensures v.TooShort? <==> |Trim(input)| == 1
    ensures v.Accepted? <==> |Trim(input)| >= 2
    ensures v.Accepted? ==> v.name == Trim(input)
  {
    var name := Trim(input);
    if name == [] then EmptyName
    else if |name| < 2 then TooShort
    else Accepted(name)
  }

  /** A name that gets through has at least two characters, is its own trim, and is accepted
      again unchanged if typed as it is. */
  lemma AcceptedNames(input: string)
    requires CheckName(input).Accepted?
    ensures var name := CheckName(input).name;
      |name| >= 2 && Trim(name) == name && CheckName(name) == Accepted(name)
  {
    TrimIdempotent(input);
  }

  /** A name padded with white space trims back to the name. */
  lemma TrimPadded(pre: string, name: string, post: string)
    requires forall k :: 0 <= k < |pre| ==> IsSpace(pre[k])
    requires forall k :: 0 <= k < |post| ==> IsSpace(post[k])
    requires name != [] && !IsSpace(name[0]) && !IsSpace(name[|name| - 1])
    ensures Trim(pre + name + post) == name
  {
    var s := pre + name + post;
    var j := |pre| + |name|;
    forall k | 0 <= k < |pre| ensures IsSpace(s[k]) {
      assert s[k] == pre[k];
    }
    forall k | j <= k < |s| ensures IsSpace(s[k]) {
      assert s[k] == post[k - j];
    }
    assert s[|pre|] == name[0] && s[j - 1] == name[|name| - 1];
    TrimUnique(s, |pre|, j);
    assert s[|pre|..j] == name;
  }

  /** White space around a name never changes the verdict. */
  lemma PaddingIgnored(pre: string, name: string, post: string)
    requires forall k :: 0 <= k < |pre| ==> IsSpace(pre[k])
    requires forall k :: 0 <= k < |post| ==> IsSpace(post[k])
    requires name != [] && !IsSpace(name[0]) && !IsSpace(name[|name| - 1])
    ensures CheckName(pre + name + post) == CheckName(name)
  {
    TrimPadded(pre, name, post);
    TrimUnique(name, 0, |name|);
    assert name[0..|name|] == name;
  }

  // ---------------------------------------------------------------------------------------
  // The player table

  type Table = map<string, Profile>

  /** `selectPlayer`'s effect on the table: a new profile when `name` is absent, then the
      entry's `lastPlayed` set to `now`. */
  function Selected(players: Table, name: string, now: int): (r: Table)
    ensures r.Keys == players.Keys + {name}
    ensures name !in players ==> r[name] == NewProfile(name, now)
    ensures name in players ==> r[name] == players[name].(lastPlayed := now)
    ensures forall n :: n in players && n != name ==> r[n] == players[n]
  {
    var p := if name in players then players[name] else NewProfile(name, now);
    players[name := p.(lastPlayed := now)]
  }

  /** Selecting a stored player keeps every statistic of the record. */
  lemma SelectKeepsStats(players: Table, name: string, now: int)
    requires name in players
    ensures var p, q := players[name], Selected(players, name, now)[name];
      q.name == p.name && q.bestLevel == p.bestLevel && q.highScore == p.highScore &&
      q.gamesPlayed == p.gamesPlayed && q.achievements == p.achievements &&
      q.totalPlayTime == p.totalPlayTime && q.createdAt == p.createdAt
  {
  }

  /** `updatePlayerStats`' effect on the table: nothing without a current player, otherwise
      only the current player's entry takes the game. */
  function StatsApplied(players: Table, current: Option<string>, level: int, score: int, now: int): (r: Table)
    requires current.Some? ==> current.value in players
    ensures r.Keys == players.Keys
    ensures current.None? ==> r == players
    ensures current.Some? ==> r[current.value] == StatsUpdated(players[current.value], level, score, now)
    ensures forall n :: n in players && current != Some(n) ==> r[n] == players[n]
  {
    if current.None? then players
    else players[current.value := StatsUpdated(players[current.value], level, score, now)]
  }

  /** After `updatePlayerStats` the current player has one more game and records at least
      the game's values, no record falls, and every other name keeps its profile. */
  lemma StatsOnlyRaise(players: Table, current: Option<string>, level: int, score: int, now: int)
    requires current.Some? ==> current.value in players
    ensures var r := StatsApplied(players, current, level, score, now);
      (forall n :: n in players && current != Some(n) ==> r[n] == players[n]) &&
      (forall n :: n in players ==> r[n].bestLevel >= players[n].bestLevel &&
                                    r[n].highScore >= players[n].highScore) &&
      (current.Some? ==> var p, q := players[current.value], r[current.value];
         q.gamesPlayed == p.gamesPlayed + 1 && q.bestLevel >= level && q.highScore >= score)
  {
  }

  /** A player's statistics after a sequence of `updatePlayerStats` calls are the profile's
      run of games. */
  function TableAfterGames(players: Table, name: string, games: seq<Game>): (r: Table)
    requires name in players
    ensures r.Keys == players.Keys
    decreases |games|
  {
    if games == [] then players
    else
      var g := games[0];
      TableAfterGames(StatsApplied(players, Some(name), g.level, g.score, g.at), name, games[1..])
  }

  /** Over a run of games the entry of `name` is `AfterGames` of the stored profile and every
      other entry is untouched. */
  lemma {:induction false} TableAfterGamesIsProfileRun(players: Table, name: string, games: seq<Game>)
    requires name in players
    ensures var r := TableAfterGames(players, name, games);
      r[name] == AfterGames(players[name], games) &&
      forall n :: n in players && n != name ==> r[n] == players[n]
    decreases |games|
  {
    if games != [] {
      var g := games[0];
      var next := StatsApplied(players, Some(name), g.level, g.score, g.at);
      TableAfterGamesIsProfileRun(next, name, games[1..]);
    }
  }

  /** `UserManager`: the stored player table and the name of the selected player, whose table
      entry is the record `currentPlayer` refers to. */
  class UserManager {
    var players: Table
    var currentPlayer: Option<string>

    ghost predicate Valid()
      reads this
    {
      currentPlayer.Some? ==> currentPlayer.value in players
    }

    /** The manager over the stored table, with no player selected. */
    constructor (stored: Table)
      ensures players == stored && currentPlayer == None && Valid()
    {
      players := stored;
      currentPlayer := None;
    }

    /** `createPlayer`: a fresh profile stored under `name` and returned. */
    method CreatePlayer(name: string, now: int) returns (player: Profile)
      modifies this
      ensures player == NewProfile(name, now)
      ensures players == old(players)[name := player]
      ensures currentPlayer == old(currentPlayer)
      ensures old(Valid()) ==> Valid()
    {
      player := NewProfile(name, now);
      players := players[name := player];
    }

    /** `selectPlayer`: the profile is created when `name` is absent, becomes the current
        player and is stamped with `now`. */
    method SelectPlayer(name: string, now: int)
      modifies this
      ensures players == Selected(old(players), name, now)
      ensures currentPlayer == Some(name)
      ensures Valid()
    {
      if name !in players {
        var player := CreatePlayer(name, now);
        players := players[name := player];
      }
      currentPlayer := Some(name);
      players := players[name := players[name].(lastPlayed := now)];
    }

    /** `updatePlayerStats`, with the finishing time `now`. */
    method UpdatePlayerStats(level: int, score: int, now: int)
      requires Valid()
      modifies this
      ensures players == StatsApplied(old(players), old(currentPlayer), level, score, now)
      ensures currentPlayer == old(currentPlayer)
      ensures Valid()
    {
      if currentPlayer.None? {
        return;
      }
      var name := currentPlayer.value;
      var player := players[name];
      player := player.(gamesPlayed := player.gamesPlayed + 1);
      if level > player.bestLevel {
        player := player.(bestLevel := level);
      }
      if score > player.highScore {
        player := player.(highScore := score);
      }
      player := player.(lastPlayed := now);
      players := players[name := player];
    }

    /** `submitPlayerName` on the typed text `input`: a name that passes the checks is
        selected; otherwise nothing in the table changes. */
    method SubmitPlayerName(input: string, now: int) returns (verdict: NameVerdict)
      modifies this
      ensures verdict == CheckName(input)
      ensures verdict.Accepted? ==>
        players == Selected(old(players), verdict.name, now) && currentPlayer == Some(verdict.name)
      ensures !verdict.Accepted? ==> players == old(players) && currentPlayer == old(currentPlayer)
      ensures old(Valid()) ==> Valid()
    {
      var name := Trim(input);
      if name == [] {
        return EmptyName;
      }
      if |name| < 2 {
        return TooShort;
      }
      verdict := Accepted(name);
      SelectPlayer(name, now);
    }
  }
}
