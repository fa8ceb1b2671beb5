/**
 * The statistics web API: the group report and the user report are
 * projections of the stored `groups` and `users` documents. Both collections
 * are maps read, never written; a `find` with `$in` yields the documents in
 * the order of the id list.
 */
module Reports {
  import opened Base
  import opened Text
  import opened Stats

  /** The HTTP answer: a JSON body, or an error status. */
  datatype Response<T> = Json(body: T) | Status(code: int)

  /** One leaderboard entry. */
  datatype PlayerRow = PlayerRow(name: string, username: Option<string>, score: int, truths: int, dares: int)

  datatype GroupReport = GroupReport(
    groupName: string,
    totalGames: int,
    highestScore: int,
    uniquePlayers: nat,
    topPlayers: seq<PlayerRow>,
    gameHistory: seq<HistoryEntry>)

  datatype UserStatsView = UserStatsView(
    gamesPlayed: int,
    totalScore: int,
    highestScore: int,
    totalTruths: int,
    totalDares: int,
    totalSkips: int)

  datatype GroupRef = GroupRef(id: ChatId, name: string)

  datatype UserReport = UserReport(
    name: string,
    username: Option<string>,
    stats: UserStatsView,
    groupsPlayed: seq<GroupRef>)

  /** The leaderboard is cut to this many entries. */
  const TopLimit := 10

  // ---------------------------------------------------------------------
  // Looking documents up by a list of ids

  /**
   * The ids of the list that have a document, each once, at its first
   * occurrence: what `find({"_id": {"$in": ids}})` yields, and what the
   * dictionary built from it keeps.
   */
  function FoundIds<V>(ids: seq<int>, m: map<int, V>): seq<int>
  {
    if ids == [] then []
    else
      var r := FoundIds(ids[..|ids| - 1], m);
      var x := ids[|ids| - 1];
      if x in m && x !in r then r + [x] else r
  }

  /** The found ids are exactly the listed ids that have a document, and none repeats. */
  lemma {:induction false} FoundIdsSpec<V>(ids: seq<int>, m: map<int, V>)
    ensures Distinct(FoundIds(ids, m))
    ensures forall x :: x in FoundIds(ids, m) ==> x in ids && x in m
    ensures forall x :: x in ids && x in m ==> x in FoundIds(ids, m)
  {
    if ids != [] {
      var init := ids[..|ids| - 1];
      var x := ids[|ids| - 1];
      FoundIdsSpec(init, m);
      assert ids == init + [x];
      if x in m && x !in FoundIds(init, m) {
        DistinctAppend(FoundIds(init, m), x);
      }
    }
  }

  /** `doc.get("title", f"Group {id}")`: a stored title is kept even when empty. */
  function GroupName(g: GroupDoc, id: ChatId): (name: string)
    ensures g.title.Some? ==> name == g.title.value
    ensures g.title.None? ==> name == "Group " + IntToString(id)
  {
    match g.title
    case Some(t) => t
    case None => "Group " + IntToString(id)
  }

  // ---------------------------------------------------------------------
  // The leaderboard loop

  function RowOf(users: map<UserId, UserDoc>, id: UserId): (r: PlayerRow)
    requires id in users
    ensures r.name == FirstTruthy(users[id].firstName, users[id].username, "Player " + IntToString(id))
    ensures r.username == users[id].username
    ensures r.score == users[id].totalScore
    ensures r.truths == users[id].totalTruths && r.dares == users[id].totalDares
  {
    var u := users[id];
    PlayerRow(FirstTruthy(u.firstName, u.username, "Player " + IntToString(id)), u.username,
              u.totalScore, u.totalTruths, u.totalDares)
  }

  function RowsOf(users: map<UserId, UserDoc>, ids: seq<UserId>): (rows: seq<PlayerRow>)
    requires forall x :: x in ids ==> x in users
    ensures |rows| == |ids|
    ensures forall i :: 0 <= i < |ids| ==> rows[i] == RowOf(users, ids[i])
  {
    seq(|ids|, i requires 0 <= i < |ids| => var id := ids[i]; assert id in ids; RowOf(users, id))
  }

  /** The running maximum of the loop, starting from 0. */
  function Highest(users: map<UserId, UserDoc>, ids: seq<UserId>): int
    requires forall x :: x in ids ==> x in users
  {
    if ids == [] then 0
    else
      var last := ids[|ids| - 1];
      assert last in ids;
      var h := Highest(users, ids[..|ids| - 1]);
      var t := users[last].totalScore;
      if t > h then t else h
  }

  /**
   * The highest score is never below 0, bounds every listed player's total,
   * and is either 0 or the total of one of them.
   */
  lemma {:induction false} HighestSpec(users: map<UserId, UserDoc>, ids: seq<UserId>)
    requires forall x :: x in ids ==> x in users
    ensures Highest(users, ids) >= 0
    ensures forall x :: x in ids ==> Highest(users, ids) >= users[x].totalScore
    ensures Highest(users, ids) == 0 || exists x :: x in ids && users[x].totalScore == Highest(users, ids)
  {
    if ids != [] {
      var init := ids[..|ids| - 1];
      var last := ids[|ids| - 1];
      HighestSpec(users, init);
      assert ids == init + [last];
      if users[last].totalScore <= Highest(users, init) && Highest(users, init) != 0 {
        var x :| x in init && users[x].totalScore == Highest(users, init);
        assert x in ids;
      }
    }
  }

  lemma HighestStep(users: map<UserId, UserDoc>, ids: seq<UserId>, i: nat)
    requires forall x :: x in ids ==> x in users
    requires i < |ids| && ids[i] in users
    ensures var h := Highest(users, ids[..i]);
            var t := users[ids[i]].totalScore;
            Highest(users, ids[..i + 1]) == if t > h then t else h
  {
    var id := ids[i];
    assert id in ids;
    assert ids[..i + 1][..i] == ids[..i];
  }

  /** The loop over the found players: one row each, and the running maximum of their totals. */
  method BuildRows(users: map<UserId, UserDoc>, found: seq<UserId>) returns (rows: seq<PlayerRow>, highest: int)
    requires forall x :: x in found ==> x in users
    ensures rows == RowsOf(users, found)
    ensures highest == Highest(users, found)
  {
    ghost var all := RowsOf(users, found);
    rows, highest := [], 0;
    var i := 0;
    while i < |found|
      invariant 0 <= i <= |found|
      invariant rows == all[..i]
      invariant highest == Highest(users, found[..i])
    {
      var id := found[i];
      assert id in found;
      HighestStep(users, found, i);
      var total := users[id].totalScore;
      if total > highest {
        highest := total;
      }
      assert all[i] == RowOf(users, id);
      PrefixStep(all, i);
      rows := rows + [RowOf(users, id)];
      i := i + 1;
    }
    assert found[..i] == found;
    assert all[..i] == all;
  }

  /** Helper: growing a prefix by one element. */
  lemma PrefixStep(s: seq<PlayerRow>, i: nat)
    requires i < |s|
    ensures s[..i + 1] == s[..i] + [s[i]]
  {
  }

  // ---------------------------------------------------------------------
  // `sort(key=score, reverse=True)`: stable, descending

  predicate SortedDesc(s: seq<PlayerRow>)
  {
    forall i, j :: 0 <= i < j < |s| ==> s[i].score >= s[j].score
  }

  /** x goes after every leading row whose score is at least its own. */
  function InsertDesc(t: seq<PlayerRow>, x: PlayerRow): (r: seq<PlayerRow>)
    ensures |r| == |t| + 1
  {
    if t == [] then [x]
    else if t[0].score >= x.score then [t[0]] + InsertDesc(t[1..], x)
    else [x] + t
  }

  function SortDesc(s: seq<PlayerRow>): (r: seq<PlayerRow>)
    ensures |r| == |s|
  {
    if s == [] then [] else InsertDesc(SortDesc(s[..|s| - 1]), s[|s| - 1])
  }

  /** The rows with the given score, in order. */
  function WithScore(s: seq<PlayerRow>, v: int): seq<PlayerRow>
  {
    if s == [] then []
    else (if s[0].score == v then [s[0]] else []) + WithScore(s[1..], v)
  }

  lemma {:induction false} WithScoreAppend(a: seq<PlayerRow>, b: seq<PlayerRow>, v: int)
    ensures WithScore(a + b, v) == WithScore(a, v) + WithScore(b, v)
  {
    if a == [] {
      assert a + b == b;
    } else {
      var head := if a[0].score == v then [a[0]] else [];
      assert (a + b)[0] == a[0];
      assert (a + b)[1..] == a[1..] + b;
      assert WithScore(a + b, v) == head + WithScore(a[1..] + b, v);
      WithScoreAppend(a[1..], b, v);
      assert WithScore(a, v) == head + WithScore(a[1..], v);
      assert head + (WithScore(a[1..], v) + WithScore(b, v)) == (head + WithScore(a[1..], v)) + WithScore(b, v);
    }
  }

  lemma {:induction false} InsertDescPermutes(t: seq<PlayerRow>, x: PlayerRow)
    ensures multiset(InsertDesc(t, x)) == multiset(t) + multiset{x}
  {
    if t != [] && t[0].score >= x.score {
      InsertDescPermutes(t[1..], x);
      assert t == [t[0]] + t[1..];
    }
  }

  lemma {:induction false} InsertDescSorted(t: seq<PlayerRow>, x: PlayerRow)
    requires SortedDesc(t)
    ensures SortedDesc(InsertDesc(t, x))
  {
    if t != [] && t[0].score >= x.score {
      var rest := t[1..];
      InsertDescSorted(rest, x);
      InsertDescPermutes(rest, x);
      var r := InsertDesc(rest, x);
      forall k | 0 <= k < |r|
        ensures t[0].score >= r[k].score
      {
        assert r[k] in multiset(rest) + multiset{x};
        if r[k] != x {
          var m :| 0 <= m < |rest| && rest[m] == r[k];
          assert rest[m] == t[m + 1];
        }
      }
      assert InsertDesc(t, x) == [t[0]] + r;
    }
  }

  lemma {:induction false} InsertDescStable(t: seq<PlayerRow>, x: PlayerRow, v: int)
    requires SortedDesc(t)
    ensures WithScore(InsertDesc(t, x), v) == WithScore(t, v) + (if x.score == v then [x] else [])
  {
    if t == [] {
    } else if t[0].score >= x.score {
      var rest := InsertDesc(t[1..], x);
      var head := if t[0].score == v then [t[0]] else [];
      var tail := if x.score == v then [x] else [];
      assert SortedDesc(t[1..]);
      InsertDescStable(t[1..], x, v);
      assert ([t[0]] + rest)[1..] == rest;
      assert WithScore(InsertDesc(t, x), v) == head + WithScore(rest, v);
      assert WithScore(t, v) == head + WithScore(t[1..], v);
      assert head + (WithScore(t[1..], v) + tail) == (head + WithScore(t[1..], v)) + tail;
    } else {
      InsertDescFront(t, x, v);
    }
  }

  /** Helper: the case of InsertDescStable where x goes in front of the whole list. */
  lemma InsertDescFront(t: seq<PlayerRow>, x: PlayerRow, v: int)
    requires SortedDesc(t) && t != [] && t[0].score < x.score
    ensures WithScore(InsertDesc(t, x), v) == WithScore(t, v) + (if x.score == v then [x] else [])
  {
    assert ([x] + t)[1..] == t;
    if x.score == v {
      NoneAbove(t, v);
    }
  }

  /** In a descending list whose head is below v, no row has score v. */
  lemma {:induction false} NoneAbove(t: seq<PlayerRow>, v: int)
    requires SortedDesc(t) && t != [] && t[0].score < v
    ensures WithScore(t, v) == []
  {
    if |t| > 1 {
      NoneAbove(t[1..], v);
    }
  }

  /** The sort yields a descending list... */
  lemma {:induction false} SortDescSorted(s: seq<PlayerRow>)
    ensures SortedDesc(SortDesc(s))
  {
    if s != [] {
      SortDescSorted(s[..|s| - 1]);
      InsertDescSorted(SortDesc(s[..|s| - 1]), s[|s| - 1]);
    }
  }

  /** ... that is a permutation of its input. */
  lemma {:induction false} SortDescPermutes(s: seq<PlayerRow>)
    ensures multiset(SortDesc(s)) == multiset(s)
  {
    if s != [] {
      var init, x := s[..|s| - 1], s[|s| - 1];
      SortDescPermutes(init);
      InsertDescPermutes(SortDesc(init), x);
      assert s == init + [x];
    }
  }

  /** The sort is stable: rows with equal scores keep their order. */
  lemma {:induction false} SortDescStable(s: seq<PlayerRow>, v: int)
    ensures WithScore(SortDesc(s), v) == WithScore(s, v)
  {
    if s != [] {
      var init := s[..|s| - 1];
      var x := s[|s| - 1];
      SortDescStable(init, v);
      SortDescSorted(init);
      InsertDescStable(SortDesc(init), x, v);
      assert s == init + [x];
      WithScoreAppend(init, [x], v);
      assert WithScore([x], v) == (if x.score == v then [x] else []) + WithScore([], v);
    }
  }

  /** `rows[:10]`. */
  function Top(s: seq<PlayerRow>): (r: seq<PlayerRow>)
    ensures |r| <= TopLimit && |r| <= |s|
    ensures r == s[..|r|]
    ensures |s| <= TopLimit ==> r == s
    ensures |s| > TopLimit ==> |r| == TopLimit
  {
    if |s| <= TopLimit then s else s[..TopLimit]
  }

  // ---------------------------------------------------------------------
  // The group report

  /** The rows of the group's players that have a user document, in the order they first joined. */
  function FoundRows(users: map<UserId, UserDoc>, g: GroupDoc): (rows: seq<PlayerRow>)
    ensures |rows| == |FoundIds(g.allPlayers, users)|
  {
    FoundIdsSpec(g.allPlayers, users);
    RowsOf(users, FoundIds(g.allPlayers, users))
  }

  /** The leaderboard of a group: found players' rows, sorted, cut to ten. */
  function Board(users: map<UserId, UserDoc>, g: GroupDoc): seq<PlayerRow>
  {
    Top(SortDesc(FoundRows(users, g)))
  }

  /** What the group report promises about a stored group document. */
  ghost predicate GroupReportOk(g: GroupDoc, id: ChatId, users: map<UserId, UserDoc>, rep: GroupReport)
  {
    && rep.groupName == GroupName(g, id)
    && rep.totalGames == g.totalGames
    && rep.gameHistory == g.gameHistory
    && rep.uniquePlayers == |g.allPlayers|
    && rep.highestScore >= 0
    && (forall x :: x in g.allPlayers && x in users ==> rep.highestScore >= users[x].totalScore)
    && (rep.highestScore == 0 || exists x :: x in g.allPlayers && x in users && users[x].totalScore == rep.highestScore)
    && rep.topPlayers == Board(users, g)
    && |rep.topPlayers| <= TopLimit
    && SortedDesc(rep.topPlayers)
    && (forall r :: r in rep.topPlayers ==> exists x :: x in g.allPlayers && x in users && r == RowOf(users, x))
  }

  /**
   * The board holds ten of the found players' rows, or all of them when
   * fewer were found; it is sorted by score; its rows, repeats counted,
   * are found players' rows; and no row left off it scores above a row
   * on it.
   */
  lemma BoardSpec(users: map<UserId, UserDoc>, g: GroupDoc)
    ensures |Board(users, g)| == if |FoundIds(g.allPlayers, users)| <= TopLimit then |FoundIds(g.allPlayers, users)| else TopLimit
    ensures SortedDesc(Board(users, g))
    ensures multiset(Board(users, g)) <= multiset(FoundRows(users, g))
    ensures forall r :: r in Board(users, g) ==> exists x :: x in g.allPlayers && x in users && r == RowOf(users, x)
    ensures forall i, j :: 0 <= j < |Board(users, g)| <= i < |SortDesc(FoundRows(users, g))| ==>
              SortDesc(FoundRows(users, g))[i].score <= Board(users, g)[j].score
  {
    FoundIdsSpec(g.allPlayers, users);
    var found := FoundIds(g.allPlayers, users);
    var rows := FoundRows(users, g);
    SortDescSorted(rows);
    SortDescPermutes(rows);
    var sorted := SortDesc(rows);
    var board := Top(sorted);
    assert Board(users, g) == board;
    forall r | r in board
      ensures exists x :: x in g.allPlayers && x in users && r == RowOf(users, x)
    {
      BoardRowFound(users, found, r);
      var x :| x in found && r == RowOf(users, x);
    }
    TopKeepsBest(sorted);
  }

  /** A row of the sorted board is the row of one of the found players. */
  lemma BoardRowFound(users: map<UserId, UserDoc>, found: seq<UserId>, r: PlayerRow)
    requires forall x :: x in found ==> x in users
    requires r in Top(SortDesc(RowsOf(users, found)))
    ensures exists x :: x in found && r == RowOf(users, x)
  {
    var rows := RowsOf(users, found);
    SortDescSorted(rows);
    SortDescPermutes(rows);
    assert r in SortDesc(rows);
    assert r in multiset(rows);
    var i :| 0 <= i < |rows| && rows[i] == r;
    assert found[i] in found;
  }

  /** Cutting a sorted list keeps it sorted, takes only its rows, and leaves off no row above a kept one. */
  lemma TopKeepsBest(s: seq<PlayerRow>)
    requires SortedDesc(s)
    ensures SortedDesc(Top(s))
    ensures multiset(Top(s)) <= multiset(s)
    ensures forall i, j :: 0 <= j < |Top(s)| <= i < |s| ==> s[i].score <= Top(s)[j].score
  {
    var t := Top(s);
    assert s == t + s[|t|..];
    forall i, j | 0 <= j < |t| <= i < |s|
      ensures s[i].score <= t[j].score
    {
      assert t[j] == s[j];
    }
  }

  /** The body of get_group_stats once the group document is found. */
  method GroupReportOf(g: GroupDoc, id: ChatId, users: map<UserId, UserDoc>) returns (rep: GroupReport)
    ensures GroupReportOk(g, id, users, rep)
    ensures g.allPlayers == [] ==> rep.highestScore == 0 && rep.uniquePlayers == 0 && rep.topPlayers == []
  {
    BoardSpec(users, g);
    if g.allPlayers == [] {
      return GroupReport(GroupName(g, id), g.totalGames, 0, 0, [], g.gameHistory);
    }
    FoundIdsSpec(g.allPlayers, users);
    var found := FoundIds(g.allPlayers, users);
    var rows, highest := BuildRows(users, found);
    HighestSpec(users, found);
    rep := GroupReport(GroupName(g, id), g.totalGames, highest, |g.allPlayers|, Top(SortDesc(rows)), g.gameHistory);
  }

  /**
   * get_group_stats as written: the 404 raised for a missing group is
   * caught by the handler's own catch-all and answered with 500.
   */
  method GetGroupStats(groups: map<ChatId, GroupDoc>, users: map<UserId, UserDoc>, id: ChatId)
    returns (resp: Response<GroupReport>)
    ensures id !in groups <==> resp == Status(500)
    ensures resp.Status? || GroupReportOk(groups[id], id, users, resp.body)
  {
    if id !in groups {
      return Status(500);
    }
    var rep := GroupReportOf(groups[id], id, users);
    resp := Json(rep);
  }

  /** get_group_stats as evidently intended: a missing group is answered with 404. */
  method GetGroupStatsIntended(groups: map<ChatId, GroupDoc>, users: map<UserId, UserDoc>, id: ChatId)
    returns (resp: Response<GroupReport>)
    ensures id !in groups <==> resp == Status(404)
    ensures resp.Status? || GroupReportOk(groups[id], id, users, resp.body)
  {
    if id !in groups {
      return Status(404);
    }
    var rep := GroupReportOf(groups[id], id, users);
    resp := Json(rep);
  }

  // ---------------------------------------------------------------------
  // The user report

  /** The loop over the found groups: one reference each, named as the group report names it. */
  method BuildGroupRefs(groups: map<ChatId, GroupDoc>, found: seq<ChatId>) returns (refs: seq<GroupRef>)
    requires forall i :: 0 <= i < |found| ==> found[i] in groups
    ensures |refs| == |found|
    ensures forall i :: 0 <= i < |found| ==> refs[i] == GroupRef(found[i], GroupName(groups[found[i]], found[i]))
  {
    refs := [];
    var i := 0;
    while i < |found|
      invariant 0 <= i <= |found|
      invariant |refs| == i
      invariant forall k :: 0 <= k < i ==> refs[k] == GroupRef(found[k], GroupName(groups[found[k]], found[k]))
    {
      refs := refs + [GroupRef(found[i], GroupName(groups[found[i]], found[i]))];
      i := i + 1;
    }
  }

  /** A missing `highest_score` reads as 0. */
  function OrZero(o: Option<int>): (r: int)
    ensures o.Some? ==> r == o.value
    ensures o.None? ==> r == 0
  {
    if o.Some? then o.value else 0
  }

  /** What the user report promises about a stored user document. */
  ghost predicate UserReportOk(u: UserDoc, id: UserId, groups: map<ChatId, GroupDoc>, rep: UserReport)
  {
    && rep.name == FirstTruthy(u.firstName, u.username, "User " + IntToString(id))
    && rep.username == u.username
    && rep.stats == UserStatsView(u.gamesPlayed, u.totalScore, OrZero(u.highestScore),
                                  u.totalTruths, u.totalDares, u.totalSkips)
    && (forall i :: 0 <= i < |rep.groupsPlayed| ==>
          var r := rep.groupsPlayed[i];
          r.id in u.groupsPlayed && r.id in groups && r.name == GroupName(groups[r.id], r.id))
    && (forall x :: x in u.groupsPlayed && x in groups ==> exists i :: 0 <= i < |rep.groupsPlayed| && rep.groupsPlayed[i].id == x)
    && (forall i, j :: 0 <= i < j < |rep.groupsPlayed| ==> rep.groupsPlayed[i].id != rep.groupsPlayed[j].id)
  }

  /** The body of get_user_stats once the user document is found. */
  method UserReportOf(u: UserDoc, id: UserId, groups: map<ChatId, GroupDoc>) returns (rep: UserReport)
    ensures UserReportOk(u, id, groups, rep)
  {
    FoundIdsSpec(u.groupsPlayed, groups);
    var found := FoundIds(u.groupsPlayed, groups);
    forall i | 0 <= i < |found|
      ensures found[i] in groups
    {
      var y := found[i];
      assert y in found;
    }
    var refs := BuildGroupRefs(groups, found);
    forall x | x in u.groupsPlayed && x in groups
      ensures exists i :: 0 <= i < |refs| && refs[i].id == x
    {
      var i :| 0 <= i < |found| && found[i] == x;
      assert refs[i].id == x;
    }
    var stats := UserStatsView(u.gamesPlayed, u.totalScore, OrZero(u.highestScore),
                               u.totalTruths, u.totalDares, u.totalSkips);
    rep := UserReport(FirstTruthy(u.firstName, u.username, "User " + IntToString(id)), u.username, stats, refs);
  }

  /**
   * get_user_stats as written: the 404 raised for a missing user is caught
   * by the handler's own catch-all and answered with 500.
   */
  method GetUserStats(users: map<UserId, UserDoc>, groups: map<ChatId, GroupDoc>, id: UserId)
    returns (resp: Response<UserReport>)
    ensures id !in users <==> resp == Status(500)
    ensures resp.Status? || UserReportOk(users[id], id, groups, resp.body)
  {
    if id !in users {
      return Status(500);
    }
    var rep := UserReportOf(users[id], id, groups);
    resp := Json(rep);
  }

  /** get_user_stats as evidently intended: a missing user is answered with 404. */
  method GetUserStatsIntended(users: map<UserId, UserDoc>, groups: map<ChatId, GroupDoc>, id: UserId)
    returns (resp: Response<UserReport>)
    ensures id !in users <==> resp == Status(404)
    ensures resp.Status? || UserReportOk(users[id], id, groups, resp.body)
  {
    if id !in users {
      return Status(404);
    }
    var rep := UserReportOf(users[id], id, groups);
    resp := Json(rep);
  }
}
