/**
 * The per-chat game session: the stored record, the MongoDB update
 * operators the bot applies to it, and the transitions of the game (join,
 * start, turn advance, choice, complete / skip / change, winner).
 *
 * Each transition works on the record as loaded from the store and returns
 * the record as the store holds it afterwards together with the reply the
 * user sees. Where the source raises an exception half way, the record
 * returned is what had already been written.
 */
module Game {
  import opened Base
  import opened QuestionBank
  import Scores
  import Guards
  import Text

  datatype Status = Waiting | Playing

  datatype Counter = Truths | Dares | Skips | Changes

  /** `player_stats.<id>`: {truths, dares, skips, changes}. */
  datatype Counters = Counters(truths: int, dares: int, skips: int, changes: int)

  const NoCounts := Counters(0, 0, 0, 0)

  function Count(c: Counters, k: Counter): int
  {
    match k
    case Truths => c.truths
    case Dares => c.dares
    case Skips => c.skips
    case Changes => c.changes
  }

  /** `$inc` of one counter: that counter moves by d, the other three stay. */
  function Bump(c: Counters, k: Counter, d: int): (r: Counters)
    ensures Count(r, k) == Count(c, k) + d
    ensures forall k' :: k' != k ==> Count(r, k') == Count(c, k')
  {
    match k
    case Truths => c.(truths := c.truths + d)
    case Dares => c.(dares := c.dares + d)
    case Skips => c.(skips := c.skips + d)
    case Changes => c.(changes := c.changes + d)
  }

  /** The counter named `f"{choice}s"`. */
  function CategoryCounter(c: Category): Counter
  {
    if c == Truth then Truths else Dares
  }

  /** The stored game document (start time left out). */
  datatype Session = Session(
    gameId: string,
    gameName: string,
    adminId: UserId,
    players: seq<UserId>,
    scores: Scores.Table<UserId>,
    playerStats: map<UserId, Counters>,
    playerQueue: seq<UserId>,
    currentPlayer: Option<UserId>,
    currentChoice: Option<Category>,
    usedTruths: seq<string>,
    usedDares: seq<string>,
    status: Status,
    truthCount: int,   // `truth_count`; absent until the first $inc, which reads it as 0
    dareCount: int)

  function Used(s: Session, c: Category): seq<string>
  {
    if c == Truth then s.usedTruths else s.usedDares
  }

  function WithUsed(s: Session, c: Category, used: seq<string>): Session
  {
    if c == Truth then s.(usedTruths := used) else s.(usedDares := used)
  }

  /** A player's counters; a missing entry reads as all zero, as `$inc` and `.get(.., {})` treat it. */
  function StatsOf(s: Session, p: UserId): Counters
  {
    MapGet(s.playerStats, p, NoCounts)
  }

  function CategoryCount(s: Session, c: Category): int
  {
    if c == Truth then s.truthCount else s.dareCount
  }

  function Score(s: Session, p: UserId): int
  {
    Scores.Get(s.scores, p, 0)
  }

  /**
   * The invariant of a stored session: players are distinct and are
   * exactly the keys of `scores` (in join order) and of `player_stats`;
   * the queue draws on the players without repetition; a waiting game has
   * no queue, turn or choice; a running game has at least two queued
   * players and the turn belongs to the head of the queue.
   */
  ghost predicate Valid(s: Session)
  {
    && Distinct(s.players)
    && Scores.Keys(s.scores) == s.players
    && (forall p :: p in s.playerStats <==> p in s.players)
    && multiset(s.playerQueue) <= multiset(s.players)
    && (s.status == Waiting ==> s.playerQueue == [] && s.currentPlayer.None? && s.currentChoice.None?)
    && (s.status == Playing ==> |s.playerQueue| >= 2 && s.currentPlayer == Some(s.playerQueue[0]))
  }

  /** The record `new_game_command` creates: a waiting game with no players. */
  function NewSession(gameId: string, gameName: string, adminId: UserId): (s: Session)
    ensures Valid(s)
    ensures s.status == Waiting && s.players == [] && s.scores == [] && s.playerStats == map[]
    ensures Used(s, Truth) == [] && Used(s, Dare) == []
    ensures s.gameId == gameId && s.gameName == gameName && s.adminId == adminId
  {
    Session(gameId, gameName, adminId, [], [], map[], [], None, None, [], [], Waiting, 0, 0)
  }

  // ---------------------------------------------------------------------
  // MongoDB update operators on the session document

  /** A `$set` of one top-level or per-category field, as `update_game` sends them. */
  datatype SetField =
    | SetStatus(status: Status)
    | SetQueue(queue: seq<UserId>)
    | SetCurrentPlayer(player: UserId)
    | SetCurrentChoice(choice: Category)
    | SetUsed(category: Category, used: seq<string>)

  /** One operator of an update document sent with `games.update_one`. */
  datatype Op =
    | Set(field: SetField)
    | PushPlayer(id: UserId)                        // $push players
    | SetScore(id: UserId, value: int)              // $set scores.<id>
    | SetCounters(id: UserId, counters: Counters)   // $set player_stats.<id>
    | IncScore(id: UserId, delta: int)              // $inc scores.<id>
    | IncCounter(id: UserId, counter: Counter, delta: int)  // $inc player_stats.<id>.<counter>
    | IncCategoryCount(category: Category, delta: int)      // $inc <choice>_count

  /** The fields of the document an operator can touch. */
  datatype Field =
    | StatusF | QueueF | CurrentPlayerF | CurrentChoiceF | UsedF(c: Category)
    | PlayersF | ScoresF | PlayerStatsF | CountF(k: Category)

  function Target(op: Op): Field
  {
    match op
    case Set(f) =>
      (match f
       case SetStatus(_) => StatusF
       case SetQueue(_) => QueueF
       case SetCurrentPlayer(_) => CurrentPlayerF
       case SetCurrentChoice(_) => CurrentChoiceF
       case SetUsed(c, _) => UsedF(c))
    case PushPlayer(_) => PlayersF
    case SetScore(_, _) => ScoresF
    case SetCounters(_, _) => PlayerStatsF
    case IncScore(_, _) => ScoresF
    case IncCounter(_, _, _) => PlayerStatsF
    case IncCategoryCount(c, _) => CountF(c)
  }

  /** The two documents hold the same value in field f. */
  predicate Agree(s: Session, t: Session, f: Field)
  {
    match f
    case StatusF => s.status == t.status
    case QueueF => s.playerQueue == t.playerQueue
    case CurrentPlayerF => s.currentPlayer == t.currentPlayer
    case CurrentChoiceF => s.currentChoice == t.currentChoice
    case UsedF(c) => Used(s, c) == Used(t, c)
    case PlayersF => s.players == t.players
    case ScoresF => s.scores == t.scores
    case PlayerStatsF => s.playerStats == t.playerStats
    case CountF(c) => CategoryCount(s, c) == CategoryCount(t, c)
  }

  function ApplySet(s: Session, f: SetField): Session
  {
    match f
    case SetStatus(st) => s.(status := st)
    case SetQueue(q) => s.(playerQueue := q)
    case SetCurrentPlayer(p) => s.(currentPlayer := Some(p))
    case SetCurrentChoice(c) => s.(currentChoice := Some(c))
    case SetUsed(c, u) => WithUsed(s, c, u)
  }

  function ApplyOp(s: Session, op: Op): (t: Session)
    ensures t.gameId == s.gameId && t.gameName == s.gameName && t.adminId == s.adminId
  {
    match op
    case Set(f) => ApplySet(s, f)
    case PushPlayer(p) => s.(players := s.players + [p])
    case SetScore(p, v) => s.(scores := Scores.Put(s.scores, p, v))
    case SetCounters(p, c) => s.(playerStats := s.playerStats[p := c])
    case IncScore(p, d) => s.(scores := Scores.Inc(s.scores, p, d))
    case IncCounter(p, k, d) => s.(playerStats := s.playerStats[p := Bump(StatsOf(s, p), k, d)])
    case IncCategoryCount(c, d) =>
      if c == Truth then s.(truthCount := s.truthCount + d) else s.(dareCount := s.dareCount + d)
  }

  /** An operator changes only the field it targets. */
  lemma OnlyTargetChanges(s: Session, op: Op, f: Field)
    requires f != Target(op)
    ensures Agree(s, ApplyOp(s, op), f)
  {
  }

  /** One update document: its operators applied in order to the stored document. */
  function ApplyOps(s: Session, ops: seq<Op>): Session
    decreases |ops|
  {
    if ops == [] then s else ApplyOps(ApplyOp(s, ops[0]), ops[1..])
  }

  /** `{"$set": updates}` as `update_game` builds it. */
  function Sets(fs: seq<SetField>): (ops: seq<Op>)
    ensures |ops| == |fs| && forall i :: 0 <= i < |fs| ==> ops[i] == Set(fs[i])
  {
    if fs == [] then [] else [Set(fs[0])] + Sets(fs[1..])
  }

  // Helpers: short update documents, operator by operator.
  lemma ApplyOne(s: Session, a: Op)
    ensures ApplyOps(s, [a]) == ApplyOp(s, a)
  {
    assert [a][1..] == [];
  }

  lemma ApplyTwo(s: Session, a: Op, b: Op)
    ensures ApplyOps(s, [a, b]) == ApplyOp(ApplyOp(s, a), b)
  {
    assert [a, b][1..] == [b];
    ApplyOne(ApplyOp(s, a), b);
  }

  lemma ApplyThree(s: Session, a: Op, b: Op, c: Op)
    ensures ApplyOps(s, [a, b, c]) == ApplyOp(ApplyOp(ApplyOp(s, a), b), c)
  {
    assert [a, b, c][1..] == [b, c];
    ApplyTwo(ApplyOp(s, a), b, c);
  }

  /** The fields an update document names. */
  function Targets(ops: seq<Op>): set<Field>
  {
    set i | 0 <= i < |ops| :: Target(ops[i])
  }

  /**
   * An update changes only the fields its operators name: every other
   * field, and the identity of the game, is the same afterwards.
   */
  lemma {:induction false} UntouchedFieldsUnchanged(s: Session, ops: seq<Op>, f: Field)
    requires f !in Targets(ops)
    ensures Agree(s, ApplyOps(s, ops), f)
    ensures ApplyOps(s, ops).gameId == s.gameId && ApplyOps(s, ops).adminId == s.adminId
    decreases |ops|
  {
    if ops != [] {
      var t := ApplyOp(s, ops[0]);
      assert Target(ops[0]) in Targets(ops);
      assert Targets(ops[1..]) <= Targets(ops) by {
        forall i | 0 <= i < |ops[1..]|
          ensures Target(ops[1..][i]) in Targets(ops)
        {
          assert ops[1..][i] == ops[i + 1];
        }
      }
      UntouchedFieldsUnchanged(t, ops[1..], f);
      OnlyTargetChanges(s, ops[0], f);
      match f
      case UsedF(c) => {}
      case CountF(c) => {}
      case _ => {}
    }
  }

  // ---------------------------------------------------------------------
  // Replies

  /**
   * An exception raised inside a handler: the handler stops where it is
   * and the application's error handler logs it and, when the update
   * carries a message, sends an apology.
   */
  datatype Fault =
    | QueueEmpty          // player_queue[0] on an empty queue
    | EmptyCorpus         // random.choice([])
    | NoChoice            // used_questions[None] in change_task
    | AdminLookupFailed   // get_chat_member raised in complete
    | WinnerKeyNotId      // int("None") in stop_game_command (the code as written)

  datatype Reply =
    | Done
    | AlreadyJoined       // "You're already in the game!"
    | NeedTwoPlayers      // "You need at least 2 players to start!"
    | AlreadyStarted      // "The game has already started!"
    | NotYourTurn         // "It's not your turn!"
    | NobodyHoldsTurn     // complete pressed before anyone holds the turn (refused by the corrected model)
    | OnlyAdminCompletes  // "Only a group admin can mark tasks as complete!"
    | GameEnded           // "This game has ended." (join with no stored game)
    | GameNotFound        // "Game not found." (complete / skip / change with no stored game)
    | Crashed(fault: Fault)

  /** The stored record after the handler, the reply, and the prompt shown if any. */
  datatype Outcome = Outcome(session: Session, reply: Reply, prompt: Option<string>)

  // ---------------------------------------------------------------------
  // Join

  function JoinOps(id: UserId): seq<Op>
  {
    [PushPlayer(id), SetScore(id, 0), SetCounters(id, NoCounts)]
  }

  /**
   * join_game_callback on a stored game: a player already in the game is
   * turned away; anyone else is appended to `players` with score 0 and
   * zero counters. The status is not consulted.
   */
  function Join(s: Session, id: UserId): (o: Outcome)
    ensures id in s.players ==> o == Outcome(s, AlreadyJoined, None)
    ensures id !in s.players ==>
              && o.reply == Done && o.prompt.None?
              && o.session.players == s.players + [id]
              && Score(o.session, id) == 0
              && (forall k :: k != id ==> Score(o.session, k) == Score(s, k))
              && Scores.Keys(o.session.scores) ==
                   (if Scores.HasKey(s.scores, id) then Scores.Keys(s.scores) else Scores.Keys(s.scores) + [id])
              && o.session.playerStats == s.playerStats[id := NoCounts]
              && o.session.(players := s.players, scores := s.scores, playerStats := s.playerStats) == s
  {
    if id in s.players then Outcome(s, AlreadyJoined, None)
    else
      ApplyThree(s, PushPlayer(id), SetScore(id, 0), SetCounters(id, NoCounts));
      Outcome(ApplyOps(s, JoinOps(id)), Done, None)
  }

  lemma JoinPreservesValid(s: Session, id: UserId)
    requires Valid(s)
    ensures Valid(Join(s, id).session)
  {
    if id !in s.players {
      var t := Join(s, id).session;
      assert !Scores.HasKey(s.scores, id);
      DistinctAppend(s.players, id);
      assert multiset(s.players) <= multiset(t.players);
    }
  }

  // ---------------------------------------------------------------------
  // Turn rotation

  /** `deque.rotate(-1)`: every element moves one place towards the front, the head goes last. */
  function RotateLeft(q: seq<UserId>): (r: seq<UserId>)
    ensures |r| == |q|
    ensures q != [] ==> r[|q| - 1] == q[0]
  {
    if q == [] then [] else q[1..] + [q[0]]
  }

  /** Rotating once keeps exactly the queued players. */
  lemma RotateLeftPermutes(q: seq<UserId>)
    ensures multiset(RotateLeft(q)) == multiset(q)
  {
    if q != [] {
      assert q == [q[0]] + q[1..];
    }
  }

  /** Position i of the rotated queue holds the element that followed position i, cyclically. */
  lemma RotateLeftShifts(q: seq<UserId>)
    ensures forall i :: 0 <= i < |q| ==> RotateLeft(q)[i] == q[(i + 1) % |q|]
  {
    if q != [] {
      var r := RotateLeft(q);
      assert r == q[1..] + [q[0]];
      var n := |q|;
      forall i | 0 <= i < n
        ensures r[i] == q[(i + 1) % n]
      {
        if i + 1 < n {
          assert (i + 1) % n == i + 1;
          assert r[i] == q[1..][i];
        } else {
          assert i + 1 == n;
          assert (i + 1) % n == 0;
        }
      }
    }
  }

  /** n turn advances' worth of rotation; the players queued do not change. */
  function RotateTimes(q: seq<UserId>, n: nat): (r: seq<UserId>)
    ensures |r| == |q|
    decreases n
  {
    if n == 0 then q else RotateTimes(RotateLeft(q), n - 1)
  }

  lemma RotationSlices(q: seq<UserId>, k: nat)
    requires 0 < k <= |q|
    ensures (q[1..] + [q[0]])[k - 1..] == q[k..] + [q[0]]
    ensures (q[1..] + [q[0]])[..k - 1] == q[1..k]
    ensures q[..k] == [q[0]] + q[1..k]
  {
  }

  /** Helper: concatenation of queues is associative. */
  lemma QueueAssoc(a: seq<UserId>, b: seq<UserId>, c: seq<UserId>)
    ensures (a + b) + c == a + (b + c)
  {
  }

  /** k rotations move the first k elements to the back, in order. */
  lemma {:induction false} RotateTimesSplits(q: seq<UserId>, k: nat)
    requires k <= |q|
    ensures RotateTimes(q, k) == q[k..] + q[..k]
    decreases k
  {
    if k > 0 {
      var r := RotateLeft(q);
      assert r == q[1..] + [q[0]];
      RotateTimesSplits(r, k - 1);
      RotationSlices(q, k);
      assert RotateTimes(q, k) == RotateTimes(r, k - 1);
      QueueAssoc(q[k..], [q[0]], q[1..k]);
    } else {
      assert q[0..] + q[..0] == q;
    }
  }

  /** Rotating never adds, drops or duplicates a queued player. */
  lemma {:induction false} RotateTimesKeepsPlayers(q: seq<UserId>, n: nat)
    ensures multiset(RotateTimes(q, n)) == multiset(q)
    decreases n
  {
    if n > 0 {
      var r := RotateLeft(q);
      assert RotateTimes(q, n) == RotateTimes(r, n - 1);
      RotateLeftPermutes(q);
      RotateTimesKeepsPlayers(r, n - 1);
    }
  }

  /** As many turn advances as there are queued players bring the queue back to where it was. */
  lemma FullCycleRestores(q: seq<UserId>)
    ensures RotateTimes(q, |q|) == q
  {
    RotateTimesSplits(q, |q|);
    assert q[|q|..] + q[..|q|] == q;
  }

  /**
   * select_next_player on a stored game: nothing happens unless the game is
   * running; otherwise the queue is rotated left once and its new head holds
   * the turn. An empty queue raises at `player_queue[0]`.
   */
  function Advance(s: Session): (o: Outcome)
    ensures s.status != Playing ==> o == Outcome(s, Done, None)
    ensures s.status == Playing && s.playerQueue == [] ==> o == Outcome(s, Crashed(QueueEmpty), None)
    ensures s.status == Playing && s.playerQueue != [] ==>
              && o.reply == Done && o.prompt.None?
              && o.session.playerQueue == RotateLeft(s.playerQueue)
              && o.session.currentPlayer == Some(o.session.playerQueue[0])
              && o.session.currentPlayer == Some(s.playerQueue[1 % |s.playerQueue|])
  {
    if s.status != Playing then Outcome(s, Done, None)
    else if s.playerQueue == [] then Outcome(s, Crashed(QueueEmpty), None)
    else
      var q := RotateLeft(s.playerQueue);
      Outcome(s.(playerQueue := q, currentPlayer := Some(q[0])), Done, None)
  }

  /** An advance moves only the queue and the turn. */
  lemma AdvanceMovesOnlyTurn(s: Session)
    ensures Advance(s).session.(playerQueue := s.playerQueue, currentPlayer := s.currentPlayer) == s
  {
  }

  /** The advance of a running game is the `$set` of the turn and the rotated queue that the bot sends. */
  lemma AdvanceWrites(s: Session)
    requires s.status == Playing && s.playerQueue != []
    ensures var q := RotateLeft(s.playerQueue);
            Advance(s).session == ApplyOps(s, [Set(SetCurrentPlayer(q[0])), Set(SetQueue(q))])
  {
    var q := RotateLeft(s.playerQueue);
    ApplyTwo(s, Set(SetCurrentPlayer(q[0])), Set(SetQueue(q)));
  }

  lemma AdvancePreservesValid(s: Session)
    requires Valid(s)
    ensures Valid(Advance(s).session)
  {
    RotateLeftPermutes(s.playerQueue);
  }

  function AdvanceTimes(s: Session, n: nat): Session
    decreases n
  {
    if n == 0 then s else AdvanceTimes(Advance(s).session, n - 1)
  }

  /**
   * Turn order is round robin: after n advances of a running game the queue
   * has been rotated n times and the turn is at its head; after as many
   * advances as there are queued players, the queue is back in its starting
   * order.
   */
  lemma {:induction false} AdvanceTimesRotates(s: Session, n: nat)
    requires s.status == Playing && s.playerQueue != []
    ensures AdvanceTimes(s, n) == Rotated(s, n)
    decreases n
  {
    if n > 0 {
      var r := Rotated(s, 1);
      AdvanceTimesShift(s, n);
      calc {
        AdvanceTimes(s, n);
        AdvanceTimes(r, n - 1);
        { AdvanceTimesRotates(r, n - 1); }
        Rotated(r, n - 1);
        { RotatedAgain(s, n); }
        Rotated(s, n);
      }
    } else {
      assert Rotated(s, 0) == s;
    }
  }

  lemma AdvanceTimesShift(s: Session, n: nat)
    requires s.status == Playing && s.playerQueue != [] && n > 0
    ensures Rotated(s, 1).status == Playing && Rotated(s, 1).playerQueue != []
    ensures AdvanceTimes(s, n) == AdvanceTimes(Rotated(s, 1), n - 1)
  {
    AdvanceStep(s);
  }

  lemma RotatedAgain(s: Session, n: nat)
    requires s.playerQueue != [] && n > 0
    ensures Rotated(Rotated(s, 1), n - 1) == Rotated(s, n)
  {
    assert RotateTimes(s.playerQueue, 1) == RotateLeft(s.playerQueue);
    assert RotateTimes(s.playerQueue, n) == RotateTimes(RotateLeft(s.playerQueue), n - 1);
  }

  /** A running game after n turn advances, written out: only the queue and the turn differ. */
  function Rotated(s: Session, n: nat): (t: Session)
    requires s.playerQueue != []
    ensures t.status == s.status && t.players == s.players && t.scores == s.scores
    ensures t.playerQueue == RotateTimes(s.playerQueue, n)
    ensures n > 0 ==> t.currentPlayer == Some(RotateTimes(s.playerQueue, n)[0])
  {
    var q := RotateTimes(s.playerQueue, n);
    s.(playerQueue := q, currentPlayer := if n == 0 then s.currentPlayer else Some(q[0]))
  }

  /** One advance of a running game is one rotation. */
  lemma AdvanceStep(s: Session)
    requires s.status == Playing && s.playerQueue != []
    ensures Advance(s).session == Rotated(s, 1)
  {
  }

  lemma AdvanceFullCycle(s: Session)
    requires s.status == Playing && s.playerQueue != []
    ensures AdvanceTimes(s, |s.playerQueue|).playerQueue == s.playerQueue
    ensures AdvanceTimes(s, |s.playerQueue|).currentPlayer == Some(s.playerQueue[0])
  {
    AdvanceTimesRotates(s, |s.playerQueue|);
    FullCycleRestores(s.playerQueue);
  }

  // ---------------------------------------------------------------------
  // Start

  /**
   * start_game_command on a stored game, given the shuffled player list:
   * fewer than two players is refused first, a running game second;
   * otherwise the game runs with the shuffled list as its queue and one
   * turn advance follows, so the turn goes to the SECOND player of the
   * shuffled list.
   */
  function Start(s: Session, shuffled: seq<UserId>): (o: Outcome)
    ensures |s.players| < 2 ==> o == Outcome(s, NeedTwoPlayers, None)
    ensures |s.players| >= 2 && s.status == Playing ==> o == Outcome(s, AlreadyStarted, None)
    ensures |s.players| >= 2 && s.status == Waiting && |shuffled| >= 2 ==>
              && o.reply == Done
              && o.session.status == Playing
              && o.session.playerQueue == RotateLeft(shuffled)
              && o.session.currentPlayer == Some(shuffled[1])
              && o.session.players == s.players && o.session.scores == s.scores
              && o.session.playerStats == s.playerStats && o.session.currentChoice == s.currentChoice
  {
    if |s.players| < 2 then Outcome(s, NeedTwoPlayers, None)
    else if s.status == Playing then Outcome(s, AlreadyStarted, None)
    else Advance(s.(status := Playing, playerQueue := shuffled))
  }

  /** Starting is the `$set` of the status and the queue that the bot sends, then one advance. */
  lemma StartWrites(s: Session, shuffled: seq<UserId>)
    requires |s.players| >= 2 && s.status == Waiting
    ensures Start(s, shuffled) == Advance(ApplyOps(s, [Set(SetStatus(Playing)), Set(SetQueue(shuffled))]))
  {
    ApplyTwo(s, Set(SetStatus(Playing)), Set(SetQueue(shuffled)));
  }

  lemma StartPreservesValid(s: Session, shuffled: seq<UserId>)
    requires Valid(s)
    requires multiset(shuffled) == multiset(s.players)
    ensures Valid(Start(s, shuffled).session)
  {
    if |s.players| >= 2 && s.status == Waiting {
      assert |shuffled| == |multiset(shuffled)| == |s.players|;
      RotateLeftPermutes(shuffled);
    }
  }

  // ---------------------------------------------------------------------
  // Choice of truth or dare

  /**
   * choice_callback on a stored game: only the player holding the turn may
   * choose; a prompt of the category is drawn, the category's used list is
   * replaced and the choice recorded. The other category's list and
   * everything else stay as they were.
   */
  function Choose(s: Session, actor: UserId, c: Category, bank: Bank, pick: nat): (o: Outcome)
    ensures s.currentPlayer != Some(actor) ==> o == Outcome(s, NotYourTurn, None)
    ensures s.currentPlayer == Some(actor) && Corpus(bank, c) == [] ==> o == Outcome(s, Crashed(EmptyCorpus), None)
    ensures s.currentPlayer == Some(actor) && Corpus(bank, c) != [] ==>
              var d := GetRandomQuestion(bank, c, Used(s, c), pick).value;
              && o.reply == Done
              && o.prompt == Some(d.question)
              && d.question in Corpus(bank, c)
              && o.session.currentChoice == Some(c)
              && Used(o.session, c) == d.used
              && o.session == WithUsed(s, c, d.used).(currentChoice := Some(c))
  {
    if s.currentPlayer != Some(actor) then Outcome(s, NotYourTurn, None)
    else
      match GetRandomQuestion(bank, c, Used(s, c), pick)
      case None => Outcome(s, Crashed(EmptyCorpus), None)
      case Some(d) =>
        ApplyTwo(s, Set(SetUsed(c, d.used)), Set(SetCurrentChoice(c)));
        Outcome(ApplyOps(s, [Set(SetUsed(c, d.used)), Set(SetCurrentChoice(c))]), Done, Some(d.question))
  }

  lemma ChoosePreservesValid(s: Session, actor: UserId, c: Category, bank: Bank, pick: nat)
    requires Valid(s)
    ensures Valid(Choose(s, actor, c, bank, pick).session)
  {
  }

  /** The other category's used list is never touched by a choice. */
  lemma ChooseLeavesOtherCategory(s: Session, actor: UserId, c: Category, c': Category, bank: Bank, pick: nat)
    requires c' != c
    ensures Used(Choose(s, actor, c, bank, pick).session, c') == Used(s, c')
  {
  }

  // ---------------------------------------------------------------------
  // Resolution of a task

  datatype Action = Complete | Skip | ChangeTask

  const CompletePoints := 5
  const SkipPoints := -6
  const ChangePoints := -2

  function CompleteOps(p: UserId, choice: Option<Category>): seq<Op>
  {
    [IncScore(p, CompletePoints)] +
    (match choice
     case Some(c) => [IncCounter(p, CategoryCounter(c), 1), IncCategoryCount(c, 1)]
     case None => [])
  }

  function SkipOps(p: UserId): seq<Op>
  {
    [IncScore(p, SkipPoints), IncCounter(p, Skips, 1)]
  }

  function ChangeOps(p: UserId, c: Category, used: seq<string>): seq<Op>
  {
    [IncScore(p, ChangePoints), IncCounter(p, Changes, 1), Set(SetUsed(c, used))]
  }

  /** Who may resolve: an admin (by the member lookup) for complete, the turn holder otherwise. */
  function ResolveRefusal(s: Session, action: Action, actor: UserId, member: Guards.Membership): (r: Option<Reply>)
    ensures action == Complete ==>
              (r.None? <==> member.Found? && Guards.IsAdminStatus(member.status))
    ensures action != Complete ==> (r.None? <==> s.currentPlayer == Some(actor))
  {
    if action == Complete then
      if member.LookupFailed? then Some(Crashed(AdminLookupFailed))
      else if !Guards.IsAdminStatus(member.status) then Some(OnlyAdminCompletes)
      else None
    else if s.currentPlayer != Some(actor) then Some(NotYourTurn)
    else None
  }

  /**
   * The turn passes as select_next_player passes it, and nothing but the
   * queue and the turn holder moves: in a running game with a queue the
   * queue rotates and its new head holds the turn; in a running game with
   * an empty queue the advance raises; outside a running game nothing
   * happens.
   */
  ghost predicate TurnPassed(t: Session, o: Outcome)
  {
    && o.prompt.None?
    && o.session.(playerQueue := t.playerQueue, currentPlayer := t.currentPlayer) == t
    && (t.status == Playing && t.playerQueue != [] ==>
          && o.reply == Done
          && o.session.playerQueue == RotateLeft(t.playerQueue)
          && o.session.currentPlayer == Some(RotateLeft(t.playerQueue)[0]))
    && (t.status == Playing && t.playerQueue == [] ==> o == Outcome(t, Crashed(QueueEmpty), None))
    && (t.status != Playing ==> o == Outcome(t, Done, None))
  }

  /**
   * The update the complete button writes for the player p holding the
   * turn: 5 points to p and, when a category was chosen, one to p's
   * counter for it and to the game's count of it.
   */
  function CompleteUpdate(s: Session, p: UserId): (t: Session)
    ensures t == s.(scores := t.scores, playerStats := t.playerStats, truthCount := t.truthCount, dareCount := t.dareCount)
  {
    var credited := s.(scores := Scores.Inc(s.scores, p, CompletePoints));
    match s.currentChoice
    case None => credited
    case Some(c) =>
      var stats := s.playerStats[p := Bump(StatsOf(s, p), CategoryCounter(c), 1)];
      if c == Truth then credited.(playerStats := stats, truthCount := s.truthCount + 1)
      else credited.(playerStats := stats, dareCount := s.dareCount + 1)
  }

  /** What complete credits: p gains 5 points and nobody else's score moves. */
  lemma CompleteCredits(s: Session, p: UserId)
    ensures Score(CompleteUpdate(s, p), p) == Score(s, p) + CompletePoints
    ensures forall k :: k != p ==> Score(CompleteUpdate(s, p), k) == Score(s, k)
    ensures Scores.HasKey(s.scores, p) ==> Scores.Keys(CompleteUpdate(s, p).scores) == Scores.Keys(s.scores)
  {
  }

  /**
   * What complete counts: when a category was chosen, p's counter for it
   * and the game's count of it go up by one and every other counter and
   * count stays; without a choice no counter moves.
   */
  lemma CompleteCounts(s: Session, p: UserId)
    ensures s.currentChoice.None? ==>
              CompleteUpdate(s, p).playerStats == s.playerStats &&
              CompleteUpdate(s, p).truthCount == s.truthCount && CompleteUpdate(s, p).dareCount == s.dareCount
    ensures s.currentChoice.Some? ==>
              var c := s.currentChoice.value;
              var t := CompleteUpdate(s, p);
              && Count(StatsOf(t, p), CategoryCounter(c)) == Count(StatsOf(s, p), CategoryCounter(c)) + 1
              && (forall k :: k != CategoryCounter(c) ==> Count(StatsOf(t, p), k) == Count(StatsOf(s, p), k))
              && (forall q :: q != p ==> MapGet(t.playerStats, q, NoCounts) == StatsOf(s, q))
              && CategoryCount(t, c) == CategoryCount(s, c) + 1
              && (forall c' :: c' != c ==> CategoryCount(t, c') == CategoryCount(s, c'))
  {
  }

  /** The update document the complete button sends has exactly that effect. */
  lemma CompleteOpsEffect(s: Session, p: UserId)
    ensures ApplyOps(s, CompleteOps(p, s.currentChoice)) == CompleteUpdate(s, p)
  {
    match s.currentChoice
    case None => UncountedOpsEffect(s, p);
    case Some(Truth) => CountedOpsEffect(s, p, Truth, Truths);
    case Some(Dare) => CountedOpsEffect(s, p, Dare, Dares);
  }

  lemma UncountedOpsEffect(s: Session, p: UserId)
    requires s.currentChoice.None?
    ensures ApplyOps(s, CompleteOps(p, s.currentChoice)) == CompleteUpdate(s, p)
  {
    var op := IncScore(p, CompletePoints);
    var credited := s.(scores := Scores.Inc(s.scores, p, CompletePoints));
    assert CompleteUpdate(s, p) == credited;
    assert CompleteOps(p, s.currentChoice) == [op] by {
      assert [op] + [] == [op];
    }
    calc {
      ApplyOps(s, CompleteOps(p, s.currentChoice));
      ApplyOps(s, [op]);
      { ApplyOne(s, op); }
      ApplyOp(s, op);
      { IncScoreApplies(s, p, CompletePoints); }
      credited;
    }
  }

  lemma IncScoreApplies(s: Session, p: UserId, d: int)
    ensures ApplyOp(s, IncScore(p, d)) == s.(scores := Scores.Inc(s.scores, p, d))
  {
  }

  lemma CountedOpsEffect(s: Session, p: UserId, c: Category, k: Counter)
    requires s.currentChoice == Some(c) && k == CategoryCounter(c)
    ensures ApplyOps(s, CompleteOps(p, s.currentChoice)) == CompleteUpdate(s, p)
  {
    CountedOpsSteps(s, p, c, k);
    CountedSteps(s, p, c, k);
  }

  lemma CountedSteps(s: Session, p: UserId, c: Category, k: Counter)
    requires s.currentChoice == Some(c) && k == CategoryCounter(c)
    ensures ApplyOp(ApplyOp(ApplyOp(s, IncScore(p, CompletePoints)), IncCounter(p, k, 1)), IncCategoryCount(c, 1)) ==
            CompleteUpdate(s, p)
  {
    var credited := ApplyOp(s, IncScore(p, CompletePoints));
    assert credited == s.(scores := Scores.Inc(s.scores, p, CompletePoints));
    var counted := ApplyOp(credited, IncCounter(p, k, 1));
    assert counted == credited.(playerStats := s.playerStats[p := Bump(StatsOf(s, p), k, 1)]);
    var last := ApplyOp(counted, IncCategoryCount(c, 1));
    if c == Truth {
      assert last == counted.(truthCount := s.truthCount + 1);
    } else {
      assert last == counted.(dareCount := s.dareCount + 1);
    }
  }

  lemma CountedOpsSteps(s: Session, p: UserId, c: Category, k: Counter)
    requires k == CategoryCounter(c)
    ensures ApplyOps(s, CompleteOps(p, Some(c))) ==
            ApplyOp(ApplyOp(ApplyOp(s, IncScore(p, CompletePoints)), IncCounter(p, k, 1)), IncCategoryCount(c, 1))
  {
    assert CompleteOps(p, Some(c)) == [IncScore(p, CompletePoints), IncCounter(p, k, 1), IncCategoryCount(c, 1)];
    ApplyThree(s, IncScore(p, CompletePoints), IncCounter(p, k, 1), IncCategoryCount(c, 1));
  }

  /** The update the skip button writes for the player p holding the turn: 6 points off and one more skip. */
  function SkipUpdate(s: Session, p: UserId): (t: Session)
    ensures t == s.(scores := t.scores, playerStats := t.playerStats)
  {
    s.(scores := Scores.Inc(s.scores, p, SkipPoints), playerStats := s.playerStats[p := Bump(StatsOf(s, p), Skips, 1)])
  }

  /** What skip charges: p loses 6 points and counts one more skip; nobody else's score or counters move. */
  lemma SkipCharges(s: Session, p: UserId)
    ensures Score(SkipUpdate(s, p), p) == Score(s, p) + SkipPoints
    ensures forall k :: k != p ==> Score(SkipUpdate(s, p), k) == Score(s, k)
    ensures Scores.HasKey(s.scores, p) ==> Scores.Keys(SkipUpdate(s, p).scores) == Scores.Keys(s.scores)
    ensures Count(StatsOf(SkipUpdate(s, p), p), Skips) == Count(StatsOf(s, p), Skips) + 1
    ensures forall k :: k != Skips ==> Count(StatsOf(SkipUpdate(s, p), p), k) == Count(StatsOf(s, p), k)
    ensures forall q :: q != p ==> StatsOf(SkipUpdate(s, p), q) == StatsOf(s, q)
  {
  }

  /** The update document the skip button sends has exactly that effect. */
  lemma SkipOpsEffect(s: Session, p: UserId)
    ensures ApplyOps(s, SkipOps(p)) == SkipUpdate(s, p)
  {
    var penalised := ApplyOp(s, IncScore(p, SkipPoints));
    assert penalised == s.(scores := Scores.Inc(s.scores, p, SkipPoints));
    ApplyTwo(s, IncScore(p, SkipPoints), IncCounter(p, Skips, 1));
  }

  /**
   * The change button for the player p holding the turn: a new prompt of
   * the chosen category is drawn, p loses 2 points and counts one more
   * change, and the turn stays with p. Without a chosen category, or with
   * an empty corpus, it raises before writing anything.
   */
  function Changed(s: Session, p: UserId, bank: Bank, pick: nat): (o: Outcome)
    ensures s.currentChoice.None? ==> o == Outcome(s, Crashed(NoChoice), None)
    ensures s.currentChoice.Some? && Corpus(bank, s.currentChoice.value) == [] ==>
              o == Outcome(s, Crashed(EmptyCorpus), None)
    ensures s.currentChoice.Some? && Corpus(bank, s.currentChoice.value) != [] ==>
              var c := s.currentChoice.value;
              var d := GetRandomQuestion(bank, c, Used(s, c), pick).value;
              o == Outcome(ChangeUpdate(s, p, c, d.used), Done, Some(d.question))
  {
    match s.currentChoice
    case None => Outcome(s, Crashed(NoChoice), None)
    case Some(c) =>
      match GetRandomQuestion(bank, c, Used(s, c), pick)
      case None => Outcome(s, Crashed(EmptyCorpus), None)
      case Some(d) => Outcome(ChangeUpdate(s, p, c, d.used), Done, Some(d.question))
  }

  /** The update the change button writes: 2 points off, one more change, and the new used list of the category. */
  function ChangeUpdate(s: Session, p: UserId, c: Category, used: seq<string>): (t: Session)
    ensures t == WithUsed(s, c, used).(scores := t.scores, playerStats := t.playerStats)
  {
    WithUsed(s, c, used).(scores := Scores.Inc(s.scores, p, ChangePoints),
                          playerStats := s.playerStats[p := Bump(StatsOf(s, p), Changes, 1)])
  }

  /**
   * What change charges: p loses 2 points and counts one more change;
   * nobody else's score or counters move.
   */
  lemma ChangeCharges(s: Session, p: UserId, c: Category, used: seq<string>)
    ensures Score(ChangeUpdate(s, p, c, used), p) == Score(s, p) + ChangePoints
    ensures forall k :: k != p ==> Score(ChangeUpdate(s, p, c, used), k) == Score(s, k)
    ensures Scores.HasKey(s.scores, p) ==> Scores.Keys(ChangeUpdate(s, p, c, used).scores) == Scores.Keys(s.scores)
    ensures Count(StatsOf(ChangeUpdate(s, p, c, used), p), Changes) == Count(StatsOf(s, p), Changes) + 1
    ensures forall k :: k != Changes ==> Count(StatsOf(ChangeUpdate(s, p, c, used), p), k) == Count(StatsOf(s, p), k)
    ensures forall q :: q != p ==> StatsOf(ChangeUpdate(s, p, c, used), q) == StatsOf(s, q)
    ensures Used(ChangeUpdate(s, p, c, used), c) == used
  {
  }

  /** The update document the change button sends has exactly that effect. */
  lemma ChangeOpsEffect(s: Session, p: UserId, c: Category, used: seq<string>)
    ensures ApplyOps(s, ChangeOps(p, c, used)) == ChangeUpdate(s, p, c, used)
  {
    var penalised := ApplyOp(s, IncScore(p, ChangePoints));
    assert penalised == s.(scores := Scores.Inc(s.scores, p, ChangePoints));
    ApplyThree(s, IncScore(p, ChangePoints), IncCounter(p, Changes, 1), Set(SetUsed(c, used)));
  }

  /**
   * completion_callback on a stored game: the permission check for the
   * action first, then the action for the player holding the turn. A
   * complete pressed while nobody holds the turn (a stale button in a game
   * that has not started) is refused here. As written, the source goes on
   * to credit the key "None", which StrayCompleteBlocksStop follows up.
   */
  function Resolve(s: Session, action: Action, actor: UserId, member: Guards.Membership, bank: Bank, pick: nat): (o: Outcome)
    ensures ResolveRefusal(s, action, actor, member).Some? ==>
              o == Outcome(s, ResolveRefusal(s, action, actor, member).value, None)
    ensures ResolveRefusal(s, action, actor, member).None? && s.currentPlayer.None? ==>
              o == Outcome(s, NobodyHoldsTurn, None)
    ensures ResolveRefusal(s, action, actor, member).None? && s.currentPlayer.Some? ==>
              var p := s.currentPlayer.value;
              && (action == Complete ==> TurnPassed(CompleteUpdate(s, p), o))
              && (action == Skip ==> TurnPassed(SkipUpdate(s, p), o))
              && (action == ChangeTask ==> o == Changed(s, p, bank, pick))
    ensures action != Complete && o.reply != NotYourTurn ==> s.currentPlayer == Some(actor)
  {
    match ResolveRefusal(s, action, actor, member)
    case Some(refusal) => Outcome(s, refusal, None)
    case None =>
      match s.currentPlayer
      case None => Outcome(s, NobodyHoldsTurn, None)
      case Some(p) =>
        match action
        case Complete => Advance(CompleteUpdate(s, p))
        case Skip => Advance(SkipUpdate(s, p))
        case ChangeTask => Changed(s, p, bank, pick)
  }

  lemma ResolvePreservesValid(s: Session, action: Action, actor: UserId, member: Guards.Membership, bank: Bank, pick: nat)
    requires Valid(s)
    ensures Valid(Resolve(s, action, actor, member, bank, pick).session)
  {
    if ResolveRefusal(s, action, actor, member).None? && s.currentPlayer.Some? {
      var p := s.currentPlayer.value;
      assert s.playerQueue[0] in multiset(s.playerQueue);
      assert p in s.players;
      match action
      case Complete => CompletePreservesValid(s, p);
      case Skip => SkipPreservesValid(s, p);
      case ChangeTask => ChangedPreservesValid(s, p, bank, pick);
    }
  }

  lemma CompletePreservesValid(s: Session, p: UserId)
    requires Valid(s) && p in s.players
    ensures Valid(Advance(CompleteUpdate(s, p)).session)
  {
    assert Scores.HasKey(s.scores, p);
    CompleteCredits(s, p);
    CompleteCounts(s, p);
    AdvancePreservesValid(CompleteUpdate(s, p));
  }

  lemma SkipPreservesValid(s: Session, p: UserId)
    requires Valid(s) && p in s.players
    ensures Valid(Advance(SkipUpdate(s, p)).session)
  {
    assert Scores.HasKey(s.scores, p);
    SkipCharges(s, p);
    AdvancePreservesValid(SkipUpdate(s, p));
  }

  lemma ChangedPreservesValid(s: Session, p: UserId, bank: Bank, pick: nat)
    requires Valid(s) && p in s.players
    ensures Valid(Changed(s, p, bank, pick).session)
  {
    assert Scores.HasKey(s.scores, p);
    if s.currentChoice.Some? && Corpus(bank, s.currentChoice.value) != [] {
      var c := s.currentChoice.value;
      ChangeCharges(s, p, c, GetRandomQuestion(bank, c, Used(s, c), pick).value.used);
    }
  }

  // ---------------------------------------------------------------------
  // Winner

  /**
   * `max(scores, key=scores.get)`: the first player, in the order the
   * scores were first written, whose score no other entry beats; none when
   * no score was recorded.
   */
  function Winner(s: Session): (w: Option<UserId>)
    ensures w.None? <==> s.scores == []
    ensures w.Some? ==>
              exists i :: 0 <= i < |s.scores| && s.scores[i].0 == w.value &&
                (forall j :: 0 <= j < |s.scores| ==> s.scores[j].1 <= s.scores[i].1) &&
                (forall j :: 0 <= j < i ==> s.scores[j].1 < s.scores[i].1)
  {
    if s.scores == [] then None else Some(s.scores[Scores.FirstMax(s.scores)].0)
  }

  /**
   * In a valid session the winner is a player, no player has a higher
   * score, and every player who joined before the winner has a strictly
   * lower one.
   */
  lemma WinnerHasTopScore(s: Session)
    requires Valid(s) && s.players != []
    ensures Winner(s).Some? && Winner(s).value in s.players
    ensures forall p :: p in s.players ==> Score(s, p) <= Score(s, Winner(s).value)
    ensures forall i :: 0 <= i < |s.players| && s.players[i] == Winner(s).value ==>
              forall j :: 0 <= j < i ==> Score(s, s.players[j]) < Score(s, Winner(s).value)
  {
    var t := s.scores;
    var w := Scores.FirstMax(t);
    assert Scores.Keys(t)[w] == t[w].0;
    Scores.GetAt(t, w);
    forall p | p in s.players
      ensures Score(s, p) <= Score(s, t[w].0)
    {
      var j :| 0 <= j < |s.players| && s.players[j] == p;
      assert Scores.Keys(t)[j] == t[j].0;
      Scores.GetAt(t, j);
    }
    forall i, j | 0 <= i < |s.players| && s.players[i] == t[w].0 && 0 <= j < i
      ensures Score(s, s.players[j]) < Score(s, t[w].0)
    {
      assert Scores.Keys(t)[i] == t[i].0 && Scores.Keys(t)[j] == t[j].0;
      assert i == w;
      Scores.GetAt(t, j);
    }
  }

  // ---------------------------------------------------------------------
  // The stored score keys and the stop's `int(max(...))`

  /** `str(current_player)`: the text of the id, or "None" when nobody holds the turn. */
  function KeyText(p: Option<UserId>): (k: string)
    ensures p.Some? ==> Text.ParseInt(k) == Some(p.value)
    ensures p.None? ==> Text.ParseInt(k).None?
  {
    if p.Some? then
      Text.IntRoundTrip(p.value);
      Text.IntToString(p.value)
    else
      assert !Text.IsDigit('N');
      "None"
  }

  /** The scores sub-document as MongoDB holds it: the same entries, keyed by the text of each id. */
  function StoredScores(t: Scores.Table<UserId>): (r: Scores.Table<string>)
    ensures |r| == |t|
    ensures forall i :: 0 <= i < |t| ==> r[i] == (KeyText(Some(t[i].0)), t[i].1)
  {
    if t == [] then [] else [(KeyText(Some(t[0].0)), t[0].1)] + StoredScores(t[1..])
  }

  /** The score part of complete as written: `$inc` of `scores.<str(current_player)>` by 5. */
  function CompleteScoresAsWritten(stored: Scores.Table<string>, current: Option<UserId>): (r: Scores.Table<string>)
    ensures forall d :: Scores.Get(r, KeyText(current), d) == Scores.Get(stored, KeyText(current), 0) + CompletePoints
    ensures forall k, d :: k != KeyText(current) ==> Scores.Get(r, k, d) == Scores.Get(stored, k, d)
  {
    Scores.Inc(stored, KeyText(current), CompletePoints)
  }

  /**
   * The winner lookup of stop_game_command on the stored document:
   * `int(max(scores, key=scores.get))`, which raises when the first top
   * key is not the text of an integer; no winner when there are no scores.
   */
  function StopWinnerAsWritten(stored: Scores.Table<string>): (r: Result<Option<UserId>, Fault>)
    ensures r == Ok(None) <==> stored == []
    ensures r.Ok? && r.value.Some? ==>
              exists i :: 0 <= i < |stored| && Text.ParseInt(stored[i].0) == Some(r.value.value) &&
                (forall j :: 0 <= j < |stored| ==> stored[j].1 <= stored[i].1)
    ensures r.Err? ==>
              exists i :: 0 <= i < |stored| && Text.ParseInt(stored[i].0).None? &&
                (forall j :: 0 <= j < |stored| ==> stored[j].1 <= stored[i].1)
  {
    if stored == [] then Ok(None)
    else
      var w := Scores.FirstMax(stored);
      match Text.ParseInt(stored[w].0)
      case Some(id) => Ok(Some(id))
      case None => Err(WinnerKeyNotId)
  }

  /**
   * As written: a complete pressed before the game has started, while
   * every joined player still has 0 points, stores 5 points under "None";
   * that key is then the first top one and the stop's `int("None")`
   * raises; it keeps raising as long as "None" holds the first top score,
   * for instance until the game is started and a player passes it.
   */
  lemma StrayCompleteBlocksStop(s: Session)
    requires Valid(s) && s.currentPlayer.None?
    requires forall i :: 0 <= i < |s.scores| ==> s.scores[i].1 == 0
    ensures StopWinnerAsWritten(CompleteScoresAsWritten(StoredScores(s.scores), s.currentPlayer)) == Err(WinnerKeyNotId)
  {
    StrayKeyOnTop(s.scores);
    assert CompleteScoresAsWritten(StoredScores(s.scores), None) == Scores.Inc(StoredScores(s.scores), KeyText(None), CompletePoints);
  }

  /** Helper: the table form of StrayCompleteBlocksStop. */
  lemma StrayKeyOnTop(t: Scores.Table<UserId>)
    requires forall i :: 0 <= i < |t| ==> t[i].1 == 0
    ensures StopWinnerAsWritten(Scores.Inc(StoredScores(t), KeyText(None), CompletePoints)) == Err(WinnerKeyNotId)
  {
    NoStoredKeyIsNone(t);
    StoredValuesBelow(t);
    TopKeyNotId(StoredScores(t), KeyText(None));
  }

  /** Helper: the stored scores are the session's, so all still below the points of one complete. */
  lemma StoredValuesBelow(t: Scores.Table<UserId>)
    requires forall i :: 0 <= i < |t| ==> t[i].1 == 0
    ensures forall i :: 0 <= i < |StoredScores(t)| ==> StoredScores(t)[i].1 < CompletePoints
  {
  }

  /** A new key that is not the text of an integer, credited above every stored score, makes the stop raise. */
  lemma TopKeyNotId(st: Scores.Table<string>, k: string)
    requires !Scores.HasKey(st, k) && Text.ParseInt(k).None?
    requires forall i :: 0 <= i < |st| ==> st[i].1 < CompletePoints
    ensures StopWinnerAsWritten(Scores.Inc(st, k, CompletePoints)) == Err(WinnerKeyNotId)
  {
    Scores.NewKeyOnTop(st, k, CompletePoints);
  }

  /** No player's key reads "None". */
  lemma NoStoredKeyIsNone(t: Scores.Table<UserId>)
    ensures !Scores.HasKey(StoredScores(t), KeyText(None))
  {
    var st := StoredScores(t);
    forall i | 0 <= i < |st|
      ensures Scores.Keys(st)[i] != KeyText(None)
    {
      assert Scores.Keys(st)[i] == KeyText(Some(t[i].0));
    }
  }

  /** Different players' keys have different texts. */
  lemma StoredKeysDistinct(t: Scores.Table<UserId>)
    requires Distinct(Scores.Keys(t))
    ensures Distinct(Scores.Keys(StoredScores(t)))
  {
    var st := StoredScores(t);
    forall i, j | 0 <= i < j < |st|
      ensures Scores.Keys(st)[i] != Scores.Keys(st)[j]
    {
      assert Scores.Keys(t)[i] == t[i].0 && Scores.Keys(t)[j] == t[j].0;
      assert Scores.Keys(st)[i] == KeyText(Some(t[i].0)) && Scores.Keys(st)[j] == KeyText(Some(t[j].0));
    }
  }

  /**
   * Corrected: with the stray complete refused, every stored key is the
   * text of a player's id, so the stop's `int(max(...))` always succeeds
   * and names exactly the model's winner.
   */
  lemma StopWinnerParses(s: Session)
    ensures StopWinnerAsWritten(StoredScores(s.scores)) == Ok(Winner(s))
  {
    if s.scores != [] {
      var st := StoredScores(s.scores);
      Scores.FirstMaxByValues(s.scores, st);
    }
  }

  // ---------------------------------------------------------------------
  // Joining a running game

  /**
   * Every player has a seat in the turn order: once the game runs, the
   * queue holds each player exactly once.
   */
  ghost predicate Seated(s: Session)
  {
    s.status == Playing ==> multiset(s.playerQueue) == multiset(s.players)
  }

  /**
   * As written, joining a running game adds the player to the players and
   * scores but not to the queue: the newcomer never holds the turn, however
   * many turns pass.
   */
  lemma MidGameJoinerNeverQueued(s: Session, id: UserId, n: nat)
    requires Valid(s) && s.status == Playing && id !in s.players
    ensures id in Join(s, id).session.players
    ensures id !in AdvanceTimes(Join(s, id).session, n).playerQueue
    ensures AdvanceTimes(Join(s, id).session, n).currentPlayer != Some(id)
    ensures !Seated(Join(s, id).session)
  {
    var t := Join(s, id).session;
    assert id !in multiset(s.playerQueue);
    AdvanceTimesRotates(t, n);
    RotateTimesKeepsPlayers(t.playerQueue, n);
    assert id !in multiset(AdvanceTimes(t, n).playerQueue);
    if n > 0 {
      assert RotateTimes(t.playerQueue, n)[0] in multiset(RotateTimes(t.playerQueue, n));
    }
    assert id in multiset(t.players);
  }

  /**
   * join_game_callback as evidently intended: the new-game message asks
   * players to join before the admin starts the game, so a join pressed
   * while the game runs is refused like a second /startgame, and the
   * session is left as it was.
   */
  function JoinIntended(s: Session, id: UserId): (o: Outcome)
    ensures s.status == Playing ==> o == Outcome(s, AlreadyStarted, None)
    ensures s.status == Playing ==> o.session == s
    ensures s.status == Waiting && id in s.players ==> o == Outcome(s, AlreadyJoined, None)
    ensures s.status == Waiting && id !in s.players ==>
              && o.reply == Done
              && o.session.status == Waiting
              && o.session.players == s.players + [id]
              && Score(o.session, id) == 0
              && o.session.playerQueue == s.playerQueue
  {
    if s.status == Playing then Outcome(s, AlreadyStarted, None) else Join(s, id)
  }

  /** The intended join keeps the session valid and never leaves a player of a running game without a seat. */
  lemma JoinIntendedPreservesValid(s: Session, id: UserId)
    requires Valid(s) && Seated(s)
    ensures Valid(JoinIntended(s, id).session) && Seated(JoinIntended(s, id).session)
  {
    if s.status == Waiting {
      JoinPreservesValid(s, id);
    }
  }

  /**
   * Whoever the intended join admits is seated by the next /startgame:
   * the start shuffles every joined player into the queue.
   */
  lemma JoinedPlayerSeatedAtStart(s: Session, id: UserId, shuffled: seq<UserId>)
    requires Valid(s) && s.status == Waiting
    requires multiset(shuffled) == multiset(JoinIntended(s, id).session.players)
    ensures id in JoinIntended(s, id).session.players
    ensures Seated(Start(JoinIntended(s, id).session, shuffled).session)
  {
    StartSeatsEveryone(JoinIntended(s, id).session, shuffled);
  }

  lemma StartSeatsEveryone(s: Session, shuffled: seq<UserId>)
    requires Seated(s)
    requires multiset(shuffled) == multiset(s.players)
    ensures Seated(Start(s, shuffled).session)
  {
    if |s.players| >= 2 && s.status == Waiting {
      assert |shuffled| == |multiset(shuffled)| == |s.players|;
      RotateLeftPermutes(shuffled);
    }
  }

  lemma AdvanceKeepsSeats(s: Session)
    requires Seated(s)
    ensures Seated(Advance(s).session)
  {
    RotateLeftPermutes(s.playerQueue);
  }

  lemma ChooseKeepsSeats(s: Session, actor: UserId, c: Category, bank: Bank, pick: nat)
    requires Seated(s)
    ensures Seated(Choose(s, actor, c, bank, pick).session)
  {
  }

  lemma ResolveKeepsSeats(s: Session, action: Action, actor: UserId, member: Guards.Membership, bank: Bank, pick: nat)
    requires Seated(s)
    ensures Seated(Resolve(s, action, actor, member, bank, pick).session)
  {
    RotateLeftPermutes(s.playerQueue);
  }

  /**
   * Fairness of the rotation: in a running game where every player is
   * seated (as the start and the intended join keep it), each player holds
   * the turn within one full round of advances.
   */
  lemma {:induction false} EverySeatedPlayerGetsTurn(s: Session, p: UserId)
    requires Seated(s) && s.status == Playing && p in s.players
    ensures exists n :: 0 < n <= |s.playerQueue| && AdvanceTimes(s, n).currentPlayer == Some(p)
  {
    var q := s.playerQueue;
    assert p in multiset(q);
    var i :| 0 <= i < |q| && q[i] == p;
    var n := if i == 0 then |q| else i;
    TurnAfter(s, n);
    RotateTimesSplits(q, n);
    if i == 0 {
      assert q[|q|..] + q[..|q|] == q;
    } else {
      assert (q[i..] + q[..i])[0] == q[i];
    }
  }

  /** After n > 0 advances of a running game the turn is at the head of the n times rotated queue. */
  lemma TurnAfter(s: Session, n: nat)
    requires s.status == Playing && s.playerQueue != [] && n > 0
    ensures AdvanceTimes(s, n).currentPlayer == Some(RotateTimes(s.playerQueue, n)[0])
  {
    AdvanceTimesRotates(s, n);
  }
}
