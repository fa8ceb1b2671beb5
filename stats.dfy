/**
 * The statistics documents the bot keeps per group and per user, and the
 * MongoDB update operators that roll a finished game into them: `$inc`
 * (a missing field counts as 0), `$max` (a missing field takes the value),
 * `$push` with `$each` and `$slice: -10`, `$addToSet` with `$each`, and
 * the upsert that starts from an empty document.
 */
module Stats {
  import opened Base
  import Scores
  import Game

  /** One `game_history` entry (its start and end times left out). */
  datatype HistoryEntry = HistoryEntry(
    gameId: string,
    gameName: string,
    players: nat,
    winner: string,
    scores: Scores.Table<UserId>)

  /** A `groups` document; `highest_score` is absent until the first game ends. */
  datatype GroupDoc = GroupDoc(
    title: Option<string>,
    totalGames: int,
    totalTruths: int,
    totalDares: int,
    highestScore: Option<int>,
    gameHistory: seq<HistoryEntry>,
    allPlayers: seq<UserId>)

  /** A `users` document. */
  datatype UserDoc = UserDoc(
    username: Option<string>,
    firstName: Option<string>,
    gamesPlayed: int,
    totalScore: int,
    highestScore: Option<int>,
    totalTruths: int,
    totalDares: int,
    totalSkips: int,
    totalChanges: int,
    groupsPlayed: seq<ChatId>)

  /** What an upsert starts from: no field set, so every counter reads 0. */
  const EmptyGroup := GroupDoc(None, 0, 0, 0, None, [], [])
  const EmptyUser := UserDoc(None, None, 0, 0, None, 0, 0, 0, 0, [])

  /** `$slice: -10` on `game_history` */
  const HistoryCap := 10

  // ---------------------------------------------------------------------
  // Update operators

  /**
   * `$max`: the stored value becomes the larger of the stored value and v;
   * a missing field takes v.
   */
  function MaxInto(prev: Option<int>, v: int): (r: Option<int>)
    ensures r.Some? && r.value >= v
    ensures prev.Some? ==> r.value >= prev.value
    ensures r.value == v || prev == Some(r.value)
  {
    if prev.Some? && prev.value > v then prev else Some(v)
  }

  /** `$slice: -cap`: the last cap elements, or all of them when there are fewer. */
  function Newest<T>(all: seq<T>, cap: nat): (r: seq<T>)
    ensures |r| == if |all| <= cap then |all| else cap
    ensures forall i :: 0 <= i < |r| ==> r[i] == all[|all| - |r| + i]
  {
    if |all| <= cap then all else all[|all| - cap..]
  }

  /** Trimming before appending more and trimming again is the same as trimming once. */
  lemma NewestAbsorbs<T>(x: seq<T>, y: seq<T>, cap: nat)
    ensures Newest(Newest(x, cap) + y, cap) == Newest(x + y, cap)
  {
    if |x| > cap {
      var k := |x| - cap;
      SliceAppend(x, y, k);
      assert Newest(x, cap) + y == (x + y)[k..];
      if |y| > 0 {
        SliceSlice(x + y, k, |y|);
      }
    }
  }

  /** Helper: slicing off a prefix commutes with appending. */
  lemma SliceAppend<T>(x: seq<T>, y: seq<T>, k: nat)
    requires k <= |x|
    ensures x[k..] + y == (x + y)[k..]
  {
  }

  /** Helper: two prefix cuts are one. */
  lemma SliceSlice<T>(x: seq<T>, i: nat, j: nat)
    requires i + j <= |x|
    ensures x[i..][j..] == x[i + j..]
  {
  }

  /**
   * `$push` of one element with `$slice: -cap`: append, then keep only the
   * last cap elements.
   */
  function PushCapped<T>(h: seq<T>, e: T, cap: nat): (r: seq<T>)
    requires cap > 0
    ensures |r| == if |h| + 1 <= cap then |h| + 1 else cap
  {
    Newest(h + [e], cap)
  }

  /** The capped push keeps the newest entries of the old list, in order, followed by the new one. */
  lemma PushCappedWindow<T>(h: seq<T>, e: T, cap: nat)
    requires cap > 0
    ensures var r := PushCapped(h, e, cap);
            r[|r| - 1] == e && r == (h + [e])[|h| + 1 - |r|..]
  {
  }

  function PushAll<T>(h: seq<T>, es: seq<T>, cap: nat): seq<T>
    requires cap > 0
    decreases |es|
  {
    if es == [] then h else PushAll(PushCapped(h, es[0], cap), es[1..], cap)
  }

  /**
   * A run of capped pushes keeps exactly the newest cap entries of
   * everything pushed, in order: the list never exceeds the cap, the
   * newest entry is last, and once more than cap entries have been pushed
   * the oldest ones are gone.
   */
  lemma {:induction false} PushAllWindow<T>(h: seq<T>, es: seq<T>, cap: nat)
    requires cap > 0 && |h| <= cap
    ensures PushAll(h, es, cap) == Newest(h + es, cap)
    decreases |es|
  {
    if es != [] {
      var e := es[0];
      PushAllWindow(PushCapped(h, e, cap), es[1..], cap);
      NewestAbsorbs(h + [e], es[1..], cap);
      HeadSplit(h, es);
    } else {
      assert h + es == h;
    }
  }

  lemma HeadSplit<T>(h: seq<T>, es: seq<T>)
    requires es != []
    ensures (h + [es[0]]) + es[1..] == h + es
  {
    assert [es[0]] + es[1..] == es;
    assert (h + [es[0]]) + es[1..] == h + ([es[0]] + es[1..]);
  }

  /** Eleven games into a history of ten: the first of them is no longer kept. */
  lemma EleventhGameDropsOldest<T>(es: seq<T>)
    requires |es| == HistoryCap + 1
    ensures PushAll([], es, HistoryCap) == es[1..]
  {
    PushAllWindow([], es, HistoryCap);
    assert [] + es == es;
  }

  /** `$addToSet` with `$each`: each element not yet present is appended, in order. */
  function AddToSet<T(==, !new)>(list: seq<T>, xs: seq<T>): (r: seq<T>)
    ensures forall y :: y in r <==> y in list || y in xs
    ensures |list| <= |r| && r[..|list|] == list
    ensures Distinct(list) ==> Distinct(r)
    decreases |xs|
  {
    if xs == [] then list
    else
      var next := if xs[0] in list then list else list + [xs[0]];
      DistinctAppendIf(list, xs[0]);
      var r := AddToSet(next, xs[1..]);
      assert r[..|list|] == r[..|next|][..|list|];
      r
  }

  lemma DistinctAppendIf<T>(list: seq<T>, x: T)
    ensures x !in list && Distinct(list) ==> Distinct(list + [x])
  {
    if x !in list && Distinct(list) {
      DistinctAppend(list, x);
    }
  }

  /** Adding elements that are all present already changes nothing. */
  lemma {:induction false} AddToSetPresent<T(!new)>(list: seq<T>, xs: seq<T>)
    requires forall x :: x in xs ==> x in list
    ensures AddToSet(list, xs) == list
    decreases |xs|
  {
    if xs != [] {
      AddToSetPresent(list, xs[1..]);
    }
  }

  // ---------------------------------------------------------------------
  // Rolling a finished game into the group document

  /**
   * The history entry of a game: the number of players, the winner's name,
   * and one score per player (0 for a player with none), in player order.
   */
  function HistoryEntryOf(s: Game.Session, winner: string): (e: HistoryEntry)
    ensures e.players == |s.players| && e.winner == winner
    ensures e.gameId == s.gameId && e.gameName == s.gameName
    ensures forall p :: Scores.HasKey(e.scores, p) <==> p in s.players
    ensures forall p :: p in s.players ==> Scores.Get(e.scores, p, 0) == Game.Score(s, p)
    ensures Distinct(s.players) ==> Scores.Keys(e.scores) == s.players
  {
    HistoryEntry(s.gameId, s.gameName, |s.players|, winner, Scores.Project(s.scores, s.players))
  }

  /** The highest score of the game, 0 when no score was recorded. */
  function HighestInGame(s: Game.Session): (h: int)
    ensures s.scores == [] ==> h == 0
    ensures forall i :: 0 <= i < |s.scores| ==> s.scores[i].1 <= h
    ensures s.scores != [] ==> exists i :: 0 <= i < |s.scores| && s.scores[i].1 == h
  {
    if s.scores == [] then 0 else Scores.MaxValue(s.scores)
  }

  /** The first update: `$set` of the title, upserting the group document. */
  function SetTitle(g: Option<GroupDoc>, title: string): (r: GroupDoc)
    ensures r.title == Some(title)
    ensures g.None? ==> r == EmptyGroup.(title := Some(title))
    ensures g.Some? ==> r == g.value.(title := Some(title))
  {
    (if g.Some? then g.value else EmptyGroup).(title := Some(title))
  }

  /** The second update: the game's totals, highest score, history entry and players. */
  function RecordGame(g: GroupDoc, s: Game.Session, winner: string): (r: GroupDoc)
    ensures r.title == g.title
  {
    g.(totalGames := g.totalGames + 1,
       totalTruths := g.totalTruths + s.truthCount,
       totalDares := g.totalDares + s.dareCount,
       highestScore := MaxInto(g.highestScore, HighestInGame(s)),
       gameHistory := PushCapped(g.gameHistory, HistoryEntryOf(s, winner), HistoryCap),
       allPlayers := AddToSet(g.allPlayers, s.players))
  }

  /** The group document after both updates of update_stats_on_game_end. */
  function GroupRollup(g: Option<GroupDoc>, title: string, s: Game.Session, winner: string): GroupDoc
  {
    RecordGame(SetTitle(g, title), s, winner)
  }

  /** The stored group before the game ended, as the updates see it. */
  function Before(g: Option<GroupDoc>): GroupDoc
  {
    if g.Some? then g.value else EmptyGroup
  }

  /**
   * Ending a game stores the chat's title, counts one more game, and adds
   * the truths and dares completed in the game (0 when none were counted).
   */
  lemma GroupTotalsEffect(g: Option<GroupDoc>, title: string, s: Game.Session, winner: string)
    ensures var r := GroupRollup(g, title, s, winner);
            && r.title == Some(title)
            && r.totalGames == Before(g).totalGames + 1
            && r.totalTruths == Before(g).totalTruths + s.truthCount
            && r.totalDares == Before(g).totalDares + s.dareCount
  {
  }

  /**
   * The group's highest score is a running maximum: afterwards it is at
   * least every score of the game and at least what it was, and it is
   * either the game's highest score or the old value.
   */
  lemma GroupHighestEffect(g: Option<GroupDoc>, title: string, s: Game.Session, winner: string)
    ensures var h := GroupRollup(g, title, s, winner).highestScore;
            && h.Some?
            && (forall i :: 0 <= i < |s.scores| ==> s.scores[i].1 <= h.value)
            && (Before(g).highestScore.Some? ==> Before(g).highestScore.value <= h.value)
            && (h.value == HighestInGame(s) || h == Before(g).highestScore)
  {
    var g1 := SetTitle(g, title);
    assert GroupRollup(g, title, s, winner).highestScore == MaxInto(g1.highestScore, HighestInGame(s));
  }

  /**
   * The game's entry goes last in a history of at most ten entries, which
   * keeps the most recent older entries in their order.
   */
  lemma GroupHistoryEffect(g: Option<GroupDoc>, title: string, s: Game.Session, winner: string)
    requires |Before(g).gameHistory| <= HistoryCap
    ensures var h := GroupRollup(g, title, s, winner).gameHistory;
            var old_ := Before(g).gameHistory;
            && 0 < |h| <= HistoryCap
            && h[|h| - 1] == HistoryEntryOf(s, winner)
            && h == (old_ + [HistoryEntryOf(s, winner)])[|old_| + 1 - |h|..]
  {
    var g1 := SetTitle(g, title);
    assert GroupRollup(g, title, s, winner).gameHistory == PushCapped(g1.gameHistory, HistoryEntryOf(s, winner), HistoryCap);
    PushCappedWindow(g1.gameHistory, HistoryEntryOf(s, winner), HistoryCap);
  }

  /**
   * Every player of the game is in the group's player list afterwards, no
   * one is dropped, the old list is kept as it was at the front, and a list
   * without repetitions stays without.
   */
  lemma GroupPlayersEffect(g: Option<GroupDoc>, title: string, s: Game.Session, winner: string)
    ensures var r := GroupRollup(g, title, s, winner).allPlayers;
            var old_ := Before(g).allPlayers;
            && (forall p :: p in r <==> p in old_ || p in s.players)
            && r[..|old_|] == old_
            && (Distinct(old_) ==> Distinct(r))
  {
    var g1 := SetTitle(g, title);
    assert GroupRollup(g, title, s, winner).allPlayers == AddToSet(g1.allPlayers, s.players);
  }

  // ---------------------------------------------------------------------
  // Rolling a finished game into a player's document

  /** update_player_stats for one player; a player without a stored document starts from zero. */
  function PlayerRollup(u: Option<UserDoc>, p: UserId, chat: ChatId, s: Game.Session): UserDoc
  {
    var old_ := if u.Some? then u.value else EmptyUser;
    var score := Game.Score(s, p);
    var c := Game.StatsOf(s, p);
    old_.(gamesPlayed := old_.gamesPlayed + 1,
          totalScore := old_.totalScore + score,
          highestScore := MaxInto(old_.highestScore, score),
          totalTruths := old_.totalTruths + c.truths,
          totalDares := old_.totalDares + c.dares,
          totalSkips := old_.totalSkips + c.skips,
          totalChanges := old_.totalChanges + c.changes,
          groupsPlayed := AddToSet(old_.groupsPlayed, [chat]))
  }

  /**
   * What ending a game does to one player's document: one more game
   * played; the game's score added to the total and folded into the
   * highest score as a running maximum; the player's counters of the game
   * (0 when missing) added to the totals; the group recorded once; the
   * name fields untouched.
   */
  lemma PlayerRollupEffect(u: Option<UserDoc>, p: UserId, chat: ChatId, s: Game.Session)
    ensures var old_ := if u.Some? then u.value else EmptyUser;
            var c := Game.StatsOf(s, p);
            var r := PlayerRollup(u, p, chat, s);
            && r.gamesPlayed == old_.gamesPlayed + 1
            && r.totalScore == old_.totalScore + Game.Score(s, p)
            && r.highestScore.Some? && r.highestScore.value >= Game.Score(s, p)
            && (old_.highestScore.Some? ==> r.highestScore.value >= old_.highestScore.value)
            && (r.highestScore.value == Game.Score(s, p) || r.highestScore == old_.highestScore)
            && r.totalTruths == old_.totalTruths + c.truths
            && r.totalDares == old_.totalDares + c.dares
            && r.totalSkips == old_.totalSkips + c.skips
            && r.totalChanges == old_.totalChanges + c.changes
            && (forall x :: x in r.groupsPlayed <==> x in old_.groupsPlayed || x == chat)
            && (Distinct(old_.groupsPlayed) ==> Distinct(r.groupsPlayed))
            && r.username == old_.username && r.firstName == old_.firstName
  {
  }

  function Lookup<K, V>(m: map<K, V>, k: K): Option<V>
  {
    if k in m then Some(m[k]) else None
  }

  /** The users collection after update_player_stats ran for each of the players in turn. */
  function RollupPlayers(users: map<UserId, UserDoc>, players: seq<UserId>, chat: ChatId, s: Game.Session): map<UserId, UserDoc>
    decreases |players|
  {
    if players == [] then users
    else
      var last := players[|players| - 1];
      var before := RollupPlayers(users, players[..|players| - 1], chat, s);
      before[last := PlayerRollup(Lookup(before, last), last, chat, s)]
  }

  /** One more player rolled up. */
  lemma RollupPlayersStep(users: map<UserId, UserDoc>, players: seq<UserId>, i: nat, chat: ChatId, s: Game.Session)
    requires i < |players|
    ensures var before := RollupPlayers(users, players[..i], chat, s);
            RollupPlayers(users, players[..i + 1], chat, s) ==
              before[players[i] := PlayerRollup(Lookup(before, players[i]), players[i], chat, s)]
  {
    assert players[..i + 1][..i] == players[..i];
  }

  /**
   * With distinct players, each player's document is rolled up exactly
   * once, from what was stored before the game ended, and every other
   * user's document is left as it was.
   */
  lemma {:induction false} RollupPlayersEffect(users: map<UserId, UserDoc>, players: seq<UserId>, chat: ChatId, s: Game.Session)
    requires Distinct(players)
    ensures var r := RollupPlayers(users, players, chat, s);
            && (forall p :: p in players ==> p in r && r[p] == PlayerRollup(Lookup(users, p), p, chat, s))
            && (forall p :: p !in players ==> Lookup(r, p) == Lookup(users, p))
    decreases |players|
  {
    if players != [] {
      var init := players[..|players| - 1];
      var last := players[|players| - 1];
      assert players == init + [last];
      assert Distinct(init);
      assert last !in init;
      RollupPlayersEffect(users, init, chat, s);
    }
  }

  /** update_user_info: `$set` of the username and first name, upserting the document. */
  function UserInfo(u: Option<UserDoc>, username: Option<string>, firstName: Option<string>): (r: UserDoc)
    ensures r.username == username && r.firstName == firstName
    ensures u.Some? ==> r == u.value.(username := username, firstName := firstName)
    ensures u.None? ==> r == EmptyUser.(username := username, firstName := firstName)
  {
    (if u.Some? then u.value else EmptyUser).(username := username, firstName := firstName)
  }
}
