/**
 * A score table as the program holds it: a dictionary from player to
 * points that, like every Python dict and MongoDB sub-document, remembers
 * the order in which its keys were first written. The order matters: the
 * winner is the first player, in that order, with the highest score.
 */
module Scores {
  import opened Base

  /** Keys are player ids in the model; the stored document's keys are their text. */
  type Table<K> = seq<(K, int)>

  function Keys<K>(t: Table<K>): (r: seq<K>)
    ensures |r| == |t|
    ensures forall i :: 0 <= i < |t| ==> r[i] == t[i].0
  {
    if t == [] then [] else [t[0].0] + Keys(t[1..])
  }

  predicate HasKey<K(==)>(t: Table<K>, k: K)
  {
    k in Keys(t)
  }

  /** `t.get(k, default)` */
  function Get<K(==)>(t: Table<K>, k: K, default: int): (r: int)
    ensures !HasKey(t, k) ==> r == default
    ensures HasKey(t, k) ==> exists i :: 0 <= i < |t| && t[i] == (k, r)
  {
    if t == [] then default
    else if t[0].0 == k then t[0].1
    else Get(t[1..], k, default)
  }

  /**
   * `t[k] = v` (a `$set` of `scores.<k>`): an existing key keeps its place,
   * a new key goes last.
   */
  function Put<K(==, !new)>(t: Table<K>, k: K, v: int): (r: Table<K>)
    ensures Keys(r) == if HasKey(t, k) then Keys(t) else Keys(t) + [k]
    ensures forall d :: Get(r, k, d) == v
    ensures forall k', d :: k' != k ==> Get(r, k', d) == Get(t, k', d)
  {
    if t == [] then [(k, v)]
    else if t[0].0 == k then [(k, v)] + t[1..]
    else [t[0]] + Put(t[1..], k, v)
  }

  /** `$inc` of `scores.<k>` by delta: a missing key counts as 0. */
  function Inc<K(==, !new)>(t: Table<K>, k: K, delta: int): (r: Table<K>)
    ensures Keys(r) == if HasKey(t, k) then Keys(t) else Keys(t) + [k]
    ensures forall d :: Get(r, k, d) == Get(t, k, 0) + delta
    ensures forall k', d :: k' != k ==> Get(r, k', d) == Get(t, k', d)
  {
    Put(t, k, Get(t, k, 0) + delta)
  }

  /** In a table with distinct keys, looking up the key of an entry gives that entry's value. */
  lemma {:induction false} GetAt<K>(t: Table<K>, i: nat)
    requires Distinct(Keys(t)) && i < |t|
    ensures forall d :: Get(t, t[i].0, d) == t[i].1
  {
    if i > 0 {
      assert Keys(t)[0] != Keys(t)[i];
      assert Keys(t[1..]) == Keys(t)[1..];
      assert Distinct(Keys(t[1..]));
      GetAt(t[1..], i - 1);
    }
  }

  /** `max(t.values())` */
  function MaxValue<K>(t: Table<K>): (m: int)
    requires t != []
    ensures forall i :: 0 <= i < |t| ==> t[i].1 <= m
    ensures exists i :: 0 <= i < |t| && t[i].1 == m
  {
    if |t| == 1 then t[0].1
    else
      var rest := MaxValue(t[1..]);
      if t[0].1 >= rest then t[0].1 else rest
  }

  /**
   * The scan behind `max(t, key=t.get)`: walk the entries in order and
   * replace the best one only by a strictly greater score.
   */
  function ScanMax<K>(t: Table<K>, i: nat, best: nat): (w: nat)
    requires best < i <= |t|
    requires forall j :: 0 <= j < i ==> t[j].1 <= t[best].1
    requires forall j :: 0 <= j < best ==> t[j].1 < t[best].1
    ensures w < |t|
    ensures forall j :: 0 <= j < |t| ==> t[j].1 <= t[w].1
    ensures forall j :: 0 <= j < w ==> t[j].1 < t[w].1
    decreases |t| - i
  {
    if i == |t| then best
    else if t[i].1 > t[best].1 then ScanMax(t, i + 1, i)
    else ScanMax(t, i + 1, best)
  }

  /** The winner's entry: the first entry holding the maximum score. */
  function FirstMax<K>(t: Table<K>): (w: nat)
    requires t != []
    ensures w < |t| && t[w].1 == MaxValue(t)
    ensures forall j :: 0 <= j < w ==> t[j].1 < t[w].1
  {
    ScanMax(t, 1, 0)
  }

  /**
   * A new key incremented above every stored score becomes the first
   * maximal entry, so `max(t, key=t.get)` returns it.
   */
  lemma NewKeyOnTop<K(!new)>(t: Table<K>, k: K, delta: int)
    requires !HasKey(t, k)
    requires forall i :: 0 <= i < |t| ==> t[i].1 < delta
    ensures var r := Inc(t, k, delta); r != [] && r[FirstMax(r)].0 == k
  {
    assert Get(t, k, 0) == 0;
    PutNewKeyAppends(t, k, delta);
    var r := t + [(k, delta)];
    assert Inc(t, k, delta) == r;
    LastOnTop(t, (k, delta));
  }

  /** An entry appended above every earlier score is the first maximal entry. */
  lemma LastOnTop<K>(t: Table<K>, e: (K, int))
    requires forall i :: 0 <= i < |t| ==> t[i].1 < e.1
    ensures FirstMax(t + [e]) == |t|
  {
    var r := t + [e];
    assert r[|t|] == e;
    assert forall j :: 0 <= j < |t| ==> r[j].1 < e.1;
  }

  /** Writing a key the table does not hold appends its entry. */
  lemma {:induction false} PutNewKeyAppends<K(!new)>(t: Table<K>, k: K, v: int)
    requires !HasKey(t, k)
    ensures Put(t, k, v) == t + [(k, v)]
  {
    if t != [] {
      assert Keys(t)[0] == t[0].0;
      assert Keys(t[1..]) == Keys(t)[1..];
      PutNewKeyAppends(t[1..], k, v);
      assert [t[0]] + (t[1..] + [(k, v)]) == t + [(k, v)];
    }
  }

  /**
   * `max(key=...)` looks only at the scores: two tables with the same
   * scores in the same order pick the same position, whatever their keys.
   */
  lemma FirstMaxByValues<K, L>(t: Table<K>, u: Table<L>)
    requires t != [] && |t| == |u|
    requires forall j :: 0 <= j < |t| ==> t[j].1 == u[j].1
    ensures FirstMax(t) == FirstMax(u)
  {
    ScanMaxByValues(t, u, 1, 0);
  }

  lemma {:induction false} ScanMaxByValues<K, L>(t: Table<K>, u: Table<L>, i: nat, best: nat)
    requires |t| == |u| && forall j :: 0 <= j < |t| ==> t[j].1 == u[j].1
    requires best < i <= |t|
    requires forall j :: 0 <= j < i ==> t[j].1 <= t[best].1
    requires forall j :: 0 <= j < best ==> t[j].1 < t[best].1
    ensures ScanMax(t, i, best) == ScanMax(u, i, best)
    decreases |t| - i
  {
    if i < |t| {
      if t[i].1 > t[best].1 {
        ScanMaxByValues(t, u, i + 1, i);
      } else {
        ScanMaxByValues(t, u, i + 1, best);
      }
    }
  }

  /**
   * `{p: t.get(p, 0) for p in players}`: one key per player, in player
   * order, each with the player's score or 0.
   */
  function Project(t: Table<UserId>, players: seq<UserId>): (r: Table<UserId>)
    ensures forall p :: HasKey(r, p) <==> p in players
    ensures forall p, d :: p in players ==> Get(r, p, d) == Get(t, p, 0)
    ensures Distinct(players) ==> Keys(r) == players
  {
    if players == [] then []
    else
      var init := players[..|players| - 1];
      var last := players[|players| - 1];
      assert players == init + [last];
      Put(Project(t, init), last, Get(t, last, 0))
  }
}
