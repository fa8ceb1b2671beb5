/**
 * The three MongoDB collections the bot writes, as maps keyed by `_id`,
 * and the methods of the bot's database class over them. Each method
 * states the whole new state of the three collections.
 */
module Store {
  import opened Base
  import Game
  import Stats

  class Database {
    var games: map<ChatId, Game.Session>
    var groups: map<ChatId, Stats.GroupDoc>
    var users: map<UserId, Stats.UserDoc>

    /** A database with empty collections. */
    constructor ()
      ensures games == map[] && groups == map[] && users == map[]
    {
      games := map[];
      groups := map[];
      users := map[];
    }

    /** get_game: the chat's stored session, if any. */
    function GetGame(chat: ChatId): (r: Option<Game.Session>)
      reads this
      ensures r.Some? <==> chat in games
      ensures r.Some? ==> r.value == games[chat]
    {
      if chat in games then Some(games[chat]) else None
    }

    /** get_group_stats: the chat's stored group document, if any. */
    function GetGroupStats(chat: ChatId): (r: Option<Stats.GroupDoc>)
      reads this
      ensures r.Some? <==> chat in groups
      ensures r.Some? ==> r.value == groups[chat]
    {
      if chat in groups then Some(groups[chat]) else None
    }

    /**
     * create_game: the session is stored under the chat's id. An id that is
     * already taken makes the insert fail and nothing is stored.
     */
    method CreateGame(chat: ChatId, s: Game.Session) returns (ok: bool)
      modifies this
      ensures ok <==> chat !in old(games)
      ensures ok ==> games == old(games)[chat := s]
      ensures !ok ==> games == old(games)
      ensures groups == old(groups) && users == old(users)
    {
      if chat in games {
        ok := false;
      } else {
        games := games[chat := s];
        ok := true;
      }
    }

    /**
     * `games.update_one({"_id": chat}, ops)` without upsert: the operators
     * are applied to the chat's session; with no session nothing happens.
     * Every field the operators do not name keeps its value.
     */
    method UpdateOne(chat: ChatId, ops: seq<Game.Op>)
      modifies this
      ensures chat in old(games) ==> games == old(games)[chat := Game.ApplyOps(old(games)[chat], ops)]
      ensures chat !in old(games) ==> games == old(games)
      ensures chat in old(games) ==>
                forall f :: f !in Game.Targets(ops) ==> Game.Agree(old(games)[chat], games[chat], f)
      ensures groups == old(groups) && users == old(users)
    {
      if chat in games {
        var before := games[chat];
        games := games[chat := Game.ApplyOps(before, ops)];
        forall f | f !in Game.Targets(ops)
          ensures Game.Agree(before, Game.ApplyOps(before, ops), f)
        {
          Game.UntouchedFieldsUnchanged(before, ops, f);
        }
      }
    }

    /** update_game: a `$set` of the given fields, and only those. */
    method UpdateGame(chat: ChatId, sets: seq<Game.SetField>)
      modifies this
      ensures chat in old(games) ==> games == old(games)[chat := Game.ApplyOps(old(games)[chat], Game.Sets(sets))]
      ensures chat !in old(games) ==> games == old(games)
      ensures chat in old(games) ==>
                forall f :: f !in Game.Targets(Game.Sets(sets)) ==> Game.Agree(old(games)[chat], games[chat], f)
      ensures groups == old(groups) && users == old(users)
    {
      UpdateOne(chat, Game.Sets(sets));
    }

    /** delete_game: only the chat's session is removed. */
    method DeleteGame(chat: ChatId)
      modifies this
      ensures games == old(games) - {chat}
      ensures chat !in games && forall c :: c != chat ==> Stats.Lookup(games, c) == Stats.Lookup(old(games), c)
      ensures groups == old(groups) && users == old(users)
    {
      games := games - {chat};
    }

    /** update_player_stats: one player's document rolled up (upserted when missing). */
    method UpdatePlayerStats(p: UserId, chat: ChatId, s: Game.Session)
      modifies this
      ensures users == old(users)[p := Stats.PlayerRollup(Stats.Lookup(old(users), p), p, chat, s)]
      ensures games == old(games) && groups == old(groups)
    {
      users := users[p := Stats.PlayerRollup(Stats.Lookup(users, p), p, chat, s)];
    }

    /**
     * The two updates update_stats_on_game_end sends to the group
     * document: the title upsert, then the game's record.
     */
    method RecordGroupGame(chat: ChatId, title: string, s: Game.Session, winner: string)
      modifies this
      ensures groups == old(groups)[chat := Stats.GroupRollup(Stats.Lookup(old(groups), chat), title, s, winner)]
      ensures games == old(games) && users == old(users)
    {
      var titled := Stats.SetTitle(Stats.Lookup(groups, chat), title);
      groups := groups[chat := titled];
      var recorded := Stats.RecordGame(titled, s, winner);
      assert recorded == Stats.GroupRollup(Stats.Lookup(old(groups), chat), title, s, winner);
      MapOverwrite(old(groups), chat, titled, recorded);
      groups := groups[chat := recorded];
    }

    /** The loop of update_stats_on_game_end: update_player_stats for every player of the game, in order. */
    method UpdateAllPlayerStats(chat: ChatId, s: Game.Session)
      modifies this
      ensures users == Stats.RollupPlayers(old(users), s.players, chat, s)
      ensures games == old(games) && groups == old(groups)
    {
      assert s.players[..0] == [];
      var i := 0;
      while i < |s.players|
        invariant 0 <= i <= |s.players|
        invariant users == Stats.RollupPlayers(old(users), s.players[..i], chat, s)
        invariant games == old(games) && groups == old(groups)
      {
        Stats.RollupPlayersStep(old(users), s.players, i, chat, s);
        UpdatePlayerStats(s.players[i], chat, s);
        i := i + 1;
      }
      assert s.players[..|s.players|] == s.players;
    }

    /**
     * update_stats_on_game_end: the group document updated, then every
     * player's document. The session itself is left in place.
     */
    method UpdateStatsOnGameEnd(chat: ChatId, title: string, s: Game.Session, winner: string)
      modifies this
      ensures groups == old(groups)[chat := Stats.GroupRollup(Stats.Lookup(old(groups), chat), title, s, winner)]
      ensures users == Stats.RollupPlayers(old(users), s.players, chat, s)
      ensures games == old(games)
    {
      RecordGroupGame(chat, title, s, winner);
      UpdateAllPlayerStats(chat, s);
    }

    /** update_user_info: the user's username and first name stored (upserted when missing). */
    method UpdateUserInfo(id: UserId, username: Option<string>, firstName: Option<string>)
      modifies this
      ensures users == old(users)[id := Stats.UserInfo(Stats.Lookup(old(users), id), username, firstName)]
      ensures games == old(games) && groups == old(groups)
    {
      users := users[id := Stats.UserInfo(Stats.Lookup(users, id), username, firstName)];
    }
  }
}
