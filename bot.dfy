/**
 * The bot's command and button handlers, run against the store. Each
 * handler loads the chat's session, decides as the matching function of
 * module Game decides, and writes the same update documents the bot sends;
 * its contract ties the new store to that function. Telegram replies are
 * the returned values; randomness and name lookups are inputs.
 */
module Bot {
  import opened Base
  import opened QuestionBank
  import opened Game
  import Guards
  import Store
  import Stats

  /** The Telegram user who pressed a button or sent a command. */
  datatype User = User(id: UserId, username: Option<string>, firstName: Option<string>)

  // ---------------------------------------------------------------------
  // random.shuffle

  function Swap(s: seq<UserId>, i: nat, j: nat): (r: seq<UserId>)
    requires i < |s| && j < |s|
    ensures |r| == |s|
  {
    s[i := s[j]][j := s[i]]
  }

  lemma SwapPermutes(s: seq<UserId>, i: nat, j: nat)
    requires i < |s| && j < |s|
    ensures multiset(Swap(s, i, j)) == multiset(s)
  {
  }

  /**
   * The Fisher-Yates passes of random.shuffle from position i down to 1:
   * position k is swapped with position `draw(k) % (k + 1)`, where draw
   * stands for the random number generator.
   */
  function ShuffleDown(s: seq<UserId>, i: nat, draw: nat -> nat): seq<UserId>
    requires i < |s|
    decreases i
  {
    if i == 0 then s else ShuffleDown(Swap(s, i, draw(i) % (i + 1)), i - 1, draw)
  }

  function Shuffled(s: seq<UserId>, draw: nat -> nat): seq<UserId>
  {
    if s == [] then [] else ShuffleDown(s, |s| - 1, draw)
  }

  /** Whatever the random draws, shuffling only reorders: the result is a permutation of the input. */
  lemma {:induction false} ShuffleDownPermutes(s: seq<UserId>, i: nat, draw: nat -> nat)
    requires i < |s|
    ensures |ShuffleDown(s, i, draw)| == |s|
    ensures multiset(ShuffleDown(s, i, draw)) == multiset(s)
    decreases i
  {
    if i > 0 {
      SwapPermutes(s, i, draw(i) % (i + 1));
      ShuffleDownPermutes(Swap(s, i, draw(i) % (i + 1)), i - 1, draw);
    }
  }

  lemma ShuffledPermutes(s: seq<UserId>, draw: nat -> nat)
    ensures |Shuffled(s, draw)| == |s| && multiset(Shuffled(s, draw)) == multiset(s)
  {
    if s != [] {
      ShuffleDownPermutes(s, |s| - 1, draw);
    }
  }

  /** One pass of the shuffle, as a step of the loop in Shuffle sees it. */
  lemma ShuffleDownStep(s: seq<UserId>, i: nat, draw: nat -> nat)
    requires 0 < i < |s|
    ensures ShuffleDown(s, i, draw) == ShuffleDown(Swap(s, i, draw(i) % (i + 1)), i - 1, draw)
  {
  }

  /** random.shuffle: the Fisher-Yates passes, swapping in place. */
  method ShuffleInPlace(a: array<UserId>, draw: nat -> nat)
    requires a.Length > 0
    modifies a
    ensures a[..] == ShuffleDown(old(a[..]), a.Length - 1, draw)
  {
    var i := a.Length - 1;
    while i > 0
      invariant 0 <= i < a.Length
      invariant ShuffleDown(a[..], i, draw) == ShuffleDown(old(a[..]), a.Length - 1, draw)
      decreases i
    {
      var j := draw(i) % (i + 1);
      ShuffleDownStep(a[..], i, draw);
      a[i], a[j] := a[j], a[i];
      i := i - 1;
    }
  }

  /** `random.shuffle` on a copy of the player list: a permutation of it, decided by the draws. */
  method Shuffle(players: seq<UserId>, draw: nat -> nat) returns (r: seq<UserId>)
    ensures r == Shuffled(players, draw)
    ensures multiset(r) == multiset(players)
  {
    if players == [] {
      return [];
    }
    var a := new UserId[|players|](k requires 0 <= k < |players| => players[k]);
    assert a[..] == players;
    ShuffleInPlace(a, draw);
    r := a[..];
    ShuffledPermutes(players, draw);
  }

  // ---------------------------------------------------------------------
  // select_next_player

  /** `deque.rotate(-1)` in place: every element moves one place forward and the head goes last. */
  method RotateInPlace(a: array<UserId>)
    requires a.Length > 0
    modifies a
    ensures a[..] == RotateLeft(old(a[..]))
  {
    var first := a[0];
    var i := 0;
    while i < a.Length - 1
      invariant 0 <= i <= a.Length - 1
      invariant forall k :: 0 <= k < i ==> a[k] == old(a[k + 1])
      invariant forall k :: i <= k < a.Length ==> a[k] == old(a[k])
    {
      a[i] := a[i + 1];
      i := i + 1;
    }
    a[a.Length - 1] := first;
    assert forall k :: 0 <= k < a.Length ==> a[..][k] == RotateLeft(old(a[..]))[k];
  }

  lemma SetsTwo(a: SetField, b: SetField)
    ensures Sets([a, b]) == [Set(a), Set(b)]
  {
    assert [a, b][1..] == [b];
    assert [b][1..] == [];
  }

  /**
   * select_next_player: with no stored game, or a game that is not
   * running, nothing happens; otherwise the stored queue is rotated and its
   * new head gets the turn, as Game.Advance says.
   */
  method SelectNextPlayer(db: Store.Database, chat: ChatId) returns (reply: Reply)
    modifies db
    ensures chat !in old(db.games) ==> reply == Done && db.games == old(db.games)
    ensures chat in old(db.games) ==>
              var o := Advance(old(db.games)[chat]);
              db.games == old(db.games)[chat := o.session] && reply == o.reply
    ensures db.groups == old(db.groups) && db.users == old(db.users)
  {
    var g := db.GetGame(chat);
    if g.None? {
      return Done;
    }
    var s := g.value;
    if s.status != Playing {
      return Done;
    }
    if s.playerQueue == [] {
      return Crashed(QueueEmpty);
    }
    var queue := new UserId[|s.playerQueue|](k requires 0 <= k < |s.playerQueue| => s.playerQueue[k]);
    assert queue[..] == s.playerQueue;
    RotateInPlace(queue);
    var next := queue[0];
    AdvanceWrites(s);
    SetsTwo(SetCurrentPlayer(next), SetQueue(queue[..]));
    db.UpdateGame(chat, [SetCurrentPlayer(next), SetQueue(queue[..])]);
    reply := Done;
  }

  // ---------------------------------------------------------------------
  // Admin commands

  /**
   * new_game_command behind is_admin and game_is_active(False): a new
   * waiting session is stored for the chat and the admin's name fields are
   * recorded. A refusal changes nothing.
   */
  method NewGame(db: Store.Database, chat: ChatId, chatType: Guards.ChatType, member: Guards.Membership,
                 admin: User, gameId: string, gameName: string) returns (r: Guards.Guarded<Reply>)
    modifies db
    ensures Guards.AdminGate(chatType, member).Some? ==>
              r == Guards.Refused(Guards.AdminGate(chatType, member).value) && unchanged(db)
    ensures Guards.AdminGate(chatType, member).None? && chat in old(db.games) ==>
              r == Guards.Refused(Guards.GameInProgress) && unchanged(db)
    ensures r.Forwarded? <==> Guards.AdminGate(chatType, member).None? && chat !in old(db.games)
    ensures r.Forwarded? ==>
              && r.result == Done
              && db.games == old(db.games)[chat := NewSession(gameId, gameName, admin.id)]
              && db.users == old(db.users)[admin.id := Stats.UserInfo(Stats.Lookup(old(db.users), admin.id), admin.username, admin.firstName)]
              && db.groups == old(db.groups)
  {
    var why := Guards.AdminGate(chatType, member);
    if why.Some? {
      return Guards.Refused(why.value);
    }
    why := Guards.ActiveGate(false, db.GetGame(chat).Some?);
    if why.Some? {
      return Guards.Refused(why.value);
    }
    var ok := db.CreateGame(chat, NewSession(gameId, gameName, admin.id));
    db.UpdateUserInfo(admin.id, admin.username, admin.firstName);
    r := Guards.Forwarded(Done);
  }

  /**
   * start_game_command behind is_admin and game_is_active(True): the
   * stored session is started, as Game.Start says, with the player list
   * shuffled by the given draws; the queue is a permutation of the players.
   */
  method StartGame(db: Store.Database, chat: ChatId, chatType: Guards.ChatType, member: Guards.Membership,
                   draw: nat -> nat) returns (r: Guards.Guarded<Reply>)
    modifies db
    ensures Guards.AdminGate(chatType, member).Some? ==>
              r == Guards.Refused(Guards.AdminGate(chatType, member).value) && unchanged(db)
    ensures Guards.AdminGate(chatType, member).None? && chat !in old(db.games) ==>
              r == Guards.Refused(Guards.NoActiveGame) && unchanged(db)
    ensures r.Forwarded? <==> Guards.AdminGate(chatType, member).None? && chat in old(db.games)
    ensures r.Forwarded? ==>
              var s := old(db.games)[chat];
              var o := Start(s, Shuffled(s.players, draw));
              && db.games == old(db.games)[chat := o.session]
              && r.result == o.reply
              && multiset(Shuffled(s.players, draw)) == multiset(s.players)
              && db.groups == old(db.groups) && db.users == old(db.users)
  {
    var why := Guards.AdminGate(chatType, member);
    if why.Some? {
      return Guards.Refused(why.value);
    }
    var g := db.GetGame(chat);
    why := Guards.ActiveGate(true, g.Some?);
    if why.Some? {
      return Guards.Refused(why.value);
    }
    ShuffledPermutes(g.value.players, draw);
    var reply := StartStored(db, chat, draw);
    r := Guards.Forwarded(reply);
  }

  /** The body of start_game_command once both checks have passed. */
  method StartStored(db: Store.Database, chat: ChatId, draw: nat -> nat) returns (reply: Reply)
    requires chat in db.games
    modifies db
    ensures var s := old(db.games)[chat];
            var o := Start(s, Shuffled(s.players, draw));
            db.games == old(db.games)[chat := o.session] && reply == o.reply
    ensures db.groups == old(db.groups) && db.users == old(db.users)
  {
    var s := db.games[chat];
    if |s.players| < 2 {
      return NeedTwoPlayers;
    }
    if s.status == Playing {
      return AlreadyStarted;
    }
    var shuffled := Shuffle(s.players, draw);
    StartWrites(s, shuffled);
    SetsTwo(SetStatus(Playing), SetQueue(shuffled));
    db.UpdateGame(chat, [SetStatus(Playing), SetQueue(shuffled)]);
    reply := SelectNextPlayer(db, chat);
  }

  /** The winner's name as stop_game_command writes it into the history: "No winner" without scores. */
  function WinnerName(s: Session, nameOf: UserId -> string): (name: string)
    ensures s.scores == [] ==> name == "No winner"
    ensures s.scores != [] ==> name == nameOf(Winner(s).value)
  {
    match Winner(s)
    case None => "No winner"
    case Some(w) => nameOf(w)
  }

  /**
   * stop_game_command behind is_admin and game_is_active(True): the winner
   * is named, the group and player statistics are rolled up, and then the
   * session is deleted. The result is the winner's name.
   */
  method StopGame(db: Store.Database, chat: ChatId, chatType: Guards.ChatType, member: Guards.Membership,
                  title: string, nameOf: UserId -> string) returns (r: Guards.Guarded<string>)
    modifies db
    ensures Guards.AdminGate(chatType, member).Some? ==>
              r == Guards.Refused(Guards.AdminGate(chatType, member).value) && unchanged(db)
    ensures Guards.AdminGate(chatType, member).None? && chat !in old(db.games) ==>
              r == Guards.Refused(Guards.NoActiveGame) && unchanged(db)
    ensures r.Forwarded? <==> Guards.AdminGate(chatType, member).None? && chat in old(db.games)
    ensures r.Forwarded? ==>
              var s := old(db.games)[chat];
              && r.result == WinnerName(s, nameOf)
              && db.games == old(db.games) - {chat}
              && db.groups == old(db.groups)[chat := Stats.GroupRollup(Stats.Lookup(old(db.groups), chat), title, s, r.result)]
              && db.users == Stats.RollupPlayers(old(db.users), s.players, chat, s)
  {
    var why := Guards.AdminGate(chatType, member);
    if why.Some? {
      return Guards.Refused(why.value);
    }
    var g := db.GetGame(chat);
    why := Guards.ActiveGate(true, g.Some?);
    if why.Some? {
      return Guards.Refused(why.value);
    }
    var s := g.value;
    var winner := WinnerName(s, nameOf);
    db.UpdateStatsOnGameEnd(chat, title, s, winner);
    db.DeleteGame(chat);
    r := Guards.Forwarded(winner);
  }

  // ---------------------------------------------------------------------
  // Buttons

  /**
   * join_game_callback: with no stored game the button is stale; otherwise
   * the stored session changes as Game.Join says, and a player who joined
   * has their name fields recorded.
   */
  method JoinGame(db: Store.Database, chat: ChatId, user: User) returns (reply: Reply)
    modifies db
    ensures chat !in old(db.games) ==> reply == GameEnded && unchanged(db)
    ensures chat in old(db.games) ==>
              var o := Join(old(db.games)[chat], user.id);
              && reply == o.reply
              && db.games == old(db.games)[chat := o.session]
              && db.groups == old(db.groups)
              && (o.reply == Done ==>
                    db.users == old(db.users)[user.id := Stats.UserInfo(Stats.Lookup(old(db.users), user.id), user.username, user.firstName)])
              && (o.reply != Done ==> db.users == old(db.users))
  {
    var g := db.GetGame(chat);
    if g.None? {
      return GameEnded;
    }
    var s := g.value;
    if user.id in s.players {
      return AlreadyJoined;
    }
    db.UpdateOne(chat, JoinOps(user.id));
    db.UpdateUserInfo(user.id, user.username, user.firstName);
    reply := Done;
  }

  /**
   * choice_callback: a player who does not hold the turn, or a stale button
   * with no stored game, is told it is not their turn; otherwise the
   * stored session changes as Game.Choose says and the drawn prompt is
   * shown.
   */
  method ChooseTask(db: Store.Database, chat: ChatId, actor: UserId, c: Category, bank: Bank, pick: nat)
    returns (reply: Reply, prompt: Option<string>)
    modifies db
    ensures chat !in old(db.games) ==> reply == NotYourTurn && prompt.None? && unchanged(db)
    ensures chat in old(db.games) ==>
              var o := Choose(old(db.games)[chat], actor, c, bank, pick);
              && db.games == old(db.games)[chat := o.session]
              && reply == o.reply && prompt == o.prompt
    ensures db.groups == old(db.groups) && db.users == old(db.users)
  {
    var g := db.GetGame(chat);
    if g.None? || g.value.currentPlayer != Some(actor) {
      return NotYourTurn, None;
    }
    var s := g.value;
    var d := GetRandomQuestion(bank, c, Used(s, c), pick);
    if d.None? {
      return Crashed(EmptyCorpus), None;
    }
    SetsTwo(SetUsed(c, d.value.used), SetCurrentChoice(c));
    db.UpdateGame(chat, [SetUsed(c, d.value.used), SetCurrentChoice(c)]);
    reply, prompt := Done, Some(d.value.question);
  }

  /**
   * completion_callback: with no stored game the button is stale;
   * otherwise the stored session changes as Game.Resolve says: the
   * permission check, then the update for complete, skip or change, and for
   * complete and skip the turn advance.
   */
  method ResolveTask(db: Store.Database, chat: ChatId, action: Action, actor: UserId, member: Guards.Membership,
                     bank: Bank, pick: nat) returns (reply: Reply, prompt: Option<string>)
    modifies db
    ensures chat !in old(db.games) ==> reply == GameNotFound && prompt.None? && unchanged(db)
    ensures chat in old(db.games) ==>
              var o := Resolve(old(db.games)[chat], action, actor, member, bank, pick);
              && db.games == old(db.games)[chat := o.session]
              && reply == o.reply && prompt == o.prompt
    ensures db.groups == old(db.groups) && db.users == old(db.users)
  {
    var g := db.GetGame(chat);
    if g.None? {
      return GameNotFound, None;
    }
    var s := g.value;
    var refusal := ResolveRefusal(s, action, actor, member);
    if refusal.Some? {
      return refusal.value, None;
    }
    if s.currentPlayer.None? {
      return NobodyHoldsTurn, None;
    }
    var p := s.currentPlayer.value;
    match action {
      case Complete =>
        CompleteOpsEffect(s, p);
        reply := WriteAndPass(db, chat, CompleteOps(p, s.currentChoice));
        prompt := None;
      case Skip =>
        SkipOpsEffect(s, p);
        reply := WriteAndPass(db, chat, SkipOps(p));
        prompt := None;
      case ChangeTask =>
        reply, prompt := ChangeStored(db, chat, p, bank, pick);
    }
  }

  /** The complete and skip branches: the score update, then select_next_player. */
  method WriteAndPass(db: Store.Database, chat: ChatId, ops: seq<Op>) returns (reply: Reply)
    requires chat in db.games
    modifies db
    ensures var o := Advance(ApplyOps(old(db.games)[chat], ops));
            db.games == old(db.games)[chat := o.session] && reply == o.reply
    ensures db.groups == old(db.groups) && db.users == old(db.users)
  {
    db.UpdateOne(chat, ops);
    reply := SelectNextPlayer(db, chat);
  }

  /** The change branch for the player p holding the turn, as Game.Changed says. */
  method ChangeStored(db: Store.Database, chat: ChatId, p: UserId, bank: Bank, pick: nat)
    returns (reply: Reply, prompt: Option<string>)
    requires chat in db.games
    modifies db
    ensures var o := Changed(old(db.games)[chat], p, bank, pick);
            db.games == old(db.games)[chat := o.session] && reply == o.reply && prompt == o.prompt
    ensures db.groups == old(db.groups) && db.users == old(db.users)
  {
    var s := db.games[chat];
    if s.currentChoice.None? {
      return Crashed(NoChoice), None;
    }
    var c := s.currentChoice.value;
    var d := GetRandomQuestion(bank, c, Used(s, c), pick);
    if d.None? {
      return Crashed(EmptyCorpus), None;
    }
    ChangeOpsEffect(s, p, c, d.value.used);
    db.UpdateOne(chat, ChangeOps(p, c, d.value.used));
    reply, prompt := Done, Some(d.value.question);
  }
}
