/**
 * The ledger of a session: an append-only list of game records with integer averages
 * and "top n" lists.
 */
module Ledger {
  import opened Records
  import opened Outcomes

  /** The exceptions the ledger's queries can raise. */
  datatype Error =
    | DivisionByZero   // an average over no records
    | IllegalArgument  // `subList(0, n)` with a negative n

  function Min(a: int, b: int): int { if a <= b then a else b }

  /** Sum of the scores, accumulated front to back. */
  function Sum(s: seq<GameRecord>): int
  {
    if s == [] then 0 else Sum(s[..|s| - 1]) + s[|s| - 1].score
  }

  function MinScore(s: seq<GameRecord>): (m: int)
    requires |s| > 0
    ensures forall i :: 0 <= i < |s| ==> m <= s[i].score
    ensures exists i :: 0 <= i < |s| && m == s[i].score
  {
    if |s| == 1 then s[0].score
    else Min(MinScore(s[..|s| - 1]), s[|s| - 1].score)
  }

  function MaxScore(s: seq<GameRecord>): (m: int)
    requires |s| > 0
    ensures forall i :: 0 <= i < |s| ==> s[i].score <= m
    ensures exists i :: 0 <= i < |s| && m == s[i].score
  {
    if |s| == 1 then s[0].score
    else var m' := MaxScore(s[..|s| - 1]); if m' < s[|s| - 1].score then s[|s| - 1].score else m'
  }

  /** Java's `int` division by a positive number: the quotient truncated toward zero. */
  function Quot(a: int, b: int): (q: int)
    requires b > 0
    ensures a >= 0 ==> 0 <= a - q * b < b
    ensures a < 0 ==> 0 <= q * b - a < b
  {
    if a >= 0 then a / b else -((-a) / b)
  }

  /** The records of one player, in insertion order. */
  function OfPlayer(s: seq<GameRecord>, id: string): (r: seq<GameRecord>)
    ensures |r| <= |s|
    ensures forall i :: 0 <= i < |r| ==> r[i].playerId == id
    ensures multiset(r) <= multiset(s)
  {
    if s == [] then []
    else
      var init, last := s[..|s| - 1], s[|s| - 1];
      assert s == init + [last];
      OfPlayer(init, id) + (if last.playerId == id then [last] else [])
  }

  /** The filter keeps every copy of each of the player's records and nothing else. */
  lemma {:induction false} OfPlayerContents(s: seq<GameRecord>, id: string)
    ensures forall x :: multiset(OfPlayer(s, id))[x] == if x.playerId == id then multiset(s)[x] else 0
  {
    if s != [] {
      var init, last := s[..|s| - 1], s[|s| - 1];
      assert s == init + [last];
      OfPlayerContents(init, id);
    }
  }

  lemma OfPlayerStep(s: seq<GameRecord>, i: nat, id: string)
    requires i < |s|
    ensures s[i].playerId == id ==> OfPlayer(s[..i + 1], id) == OfPlayer(s[..i], id) + [s[i]]
    ensures s[i].playerId != id ==> OfPlayer(s[..i + 1], id) == OfPlayer(s[..i], id)
  {
    assert s[..i + 1][..i] == s[..i];
    assert OfPlayer(s[..i], id) + [] == OfPlayer(s[..i], id);
  }

  lemma SumStep(s: seq<GameRecord>, x: GameRecord)
    ensures Sum(s + [x]) == Sum(s) + x.score
  {
    assert (s + [x])[..|s|] == s;
  }

  /** One more record adds its score and one game to its own player's total, and nothing to another's. */
  lemma OfPlayerSumStep(s: seq<GameRecord>, i: nat, id: string)
    requires i < |s|
    ensures Sum(OfPlayer(s[..i + 1], id)) == Sum(OfPlayer(s[..i], id)) + (if s[i].playerId == id then s[i].score else 0)
    ensures |OfPlayer(s[..i + 1], id)| == |OfPlayer(s[..i], id)| + (if s[i].playerId == id then 1 else 0)
  {
    OfPlayerStep(s, i, id);
    if s[i].playerId == id {
      SumStep(OfPlayer(s[..i], id), s[i]);
    }
  }

  /** A player has no records exactly when no record carries the player's id. */
  lemma {:induction false} NoPlayerRecords(s: seq<GameRecord>, id: string)
    ensures OfPlayer(s, id) == [] <==> forall i :: 0 <= i < |s| ==> s[i].playerId != id
  {
    if s != [] {
      NoPlayerRecords(s[..|s| - 1], id);
      if s[|s| - 1].playerId != id {
        forall i | 0 <= i < |s| - 1 ensures s[i].playerId == s[..|s| - 1][i].playerId { }
      }
    }
  }

  /** The total of a concatenation is the sum of the totals. */
  lemma {:induction false} SumAppend(s: seq<GameRecord>, t: seq<GameRecord>)
    ensures Sum(s + t) == Sum(s) + Sum(t)
  {
    if t != [] {
      var init, last := t[..|t| - 1], t[|t| - 1];
      assert (s + t)[..|s + t| - 1] == s + init && (s + t)[|s + t| - 1] == last;
      SumAppend(s, init);
    } else {
      assert s + t == s;
    }
  }

  /** The records with score k, in the order they appear. */
  function WithScore(s: seq<GameRecord>, k: int): seq<GameRecord>
  {
    if s == [] then [] else (if s[0].score == k then [s[0]] else []) + WithScore(s[1..], k)
  }

  predicate NonIncreasing(s: seq<GameRecord>)
  {
    forall i, j :: 0 <= i < j < |s| ==> s[j].score <= s[i].score
  }

  /**
   * Inserts x in front of the first record it is not below. Since x precedes every record
   * of t in the input, it also precedes the records of t with its own score.
   */
  function Insert(x: GameRecord, t: seq<GameRecord>): (r: seq<GameRecord>)
    ensures |r| == |t| + 1
  {
    if t == [] || CompareTo(t[0], x) <= 0 then [x] + t else [t[0]] + Insert(x, t[1..])
  }

  /**
   * `Collections.sort(list, Collections.reverseOrder())`: a stable sort by non-increasing
   * score. A stable sort's result is fixed by the order, so any stable algorithm gives this.
   */
  function ReverseOrderSort(s: seq<GameRecord>): (r: seq<GameRecord>)
    ensures |r| == |s|
  {
    if s == [] then [] else Insert(s[0], ReverseOrderSort(s[1..]))
  }

  /** `list.subList(0, Math.min(n, list.size()))` of the sorted list. */
  function Top(s: seq<GameRecord>, n: int): (r: seq<GameRecord>)
    requires n >= 0
    ensures |r| == Min(n, |s|)
  {
    ReverseOrderSort(s)[..Min(n, |s|)]
  }

  /**
   * What a top-n list promises: min(n, |s|) records drawn from s, by non-increasing score,
   * none of them scoring below a record left out, and for each score the records returned
   * are the earliest inserted ones with that score.
   */
  ghost predicate IsTopList(r: seq<GameRecord>, s: seq<GameRecord>, n: int)
  {
    && n >= 0
    && |r| == Min(n, |s|)
    && NonIncreasing(r)
    && multiset(r) <= multiset(s)
    && (forall x, y :: x in multiset(s) - multiset(r) && y in r ==> x.score <= y.score)
    && (forall k :: WithScore(r, k) <= WithScore(s, k))
  }

  lemma {:induction false} SumAtLeast(s: seq<GameRecord>, lo: int)
    requires forall i :: 0 <= i < |s| ==> lo <= s[i].score
    ensures |s| * lo <= Sum(s)
  {
    if s != [] {
      SumAtLeast(s[..|s| - 1], lo);
    }
  }

  lemma {:induction false} SumAtMost(s: seq<GameRecord>, hi: int)
    requires forall i :: 0 <= i < |s| ==> s[i].score <= hi
    ensures Sum(s) <= |s| * hi
  {
    if s != [] {
      SumAtMost(s[..|s| - 1], hi);
    }
  }

  lemma MulMonotone(x: int, y: int, n: int)
    requires x <= y && n > 0
    ensures x * n <= y * n
  {
    assert y * n - x * n == (y - x) * n;
  }

  /** A truncated quotient of a value between n * lo and n * hi lies between lo and hi. */
  lemma QuotBetween(a: int, n: int, lo: int, hi: int)
    requires n > 0 && n * lo <= a <= n * hi
    ensures lo <= Quot(a, n) <= hi
  {
    var q := Quot(a, n);
    if q < lo {
      MulMonotone(q + 1, lo, n);
    }
    if q > hi {
      MulMonotone(hi + 1, q, n);
      MulMonotone(hi, q - 1, n);
    }
  }

  /** The integer average of a non-empty list lies between its least and greatest score. */
  lemma AverageBounds(s: seq<GameRecord>)
    requires |s| > 0
    ensures MinScore(s) <= Quot(Sum(s), |s|) <= MaxScore(s)
  {
    SumAtLeast(s, MinScore(s));
    SumAtMost(s, MaxScore(s));
    QuotBetween(Sum(s), |s|, MinScore(s), MaxScore(s));
  }

  lemma {:induction false} InsertContents(x: GameRecord, t: seq<GameRecord>)
    ensures multiset(Insert(x, t)) == multiset(t) + multiset{x}
  {
    if t != [] && CompareTo(t[0], x) > 0 {
      InsertContents(x, t[1..]);
      assert t == [t[0]] + t[1..];
    }
  }

  lemma {:induction false} InsertNonIncreasing(x: GameRecord, t: seq<GameRecord>)
    requires NonIncreasing(t)
    ensures NonIncreasing(Insert(x, t))
  {
    if t != [] && CompareTo(t[0], x) > 0 {
      var rest := Insert(x, t[1..]);
      InsertNonIncreasing(x, t[1..]);
      InsertContents(x, t[1..]);
      forall j | 0 <= j < |rest| ensures rest[j].score <= t[0].score {
        assert rest[j] in multiset(rest);
        assert rest[j] == x || rest[j] in multiset(t[1..]);
        if rest[j] != x {
          var i :| 0 <= i < |t[1..]| && t[1..][i] == rest[j];
          assert t[i + 1] == rest[j];
        }
      }
    }
  }

  lemma {:induction false} InsertWithScore(x: GameRecord, t: seq<GameRecord>, k: int)
    ensures WithScore(Insert(x, t), k) == (if x.score == k then [x] else []) + WithScore(t, k)
  {
    if t != [] && CompareTo(t[0], x) > 0 {
      var u := Insert(x, t[1..]);
      assert Insert(x, t) == [t[0]] + u;
      InsertWithScore(x, t[1..], k);
      WithScoreCons(t[0], u, k);
      assert t[0].score == k ==> x.score != k;
    } else {
      WithScoreCons(x, t, k);
    }
  }

  lemma WithScoreCons(y: GameRecord, u: seq<GameRecord>, k: int)
    ensures WithScore([y] + u, k) == (if y.score == k then [y] else []) + WithScore(u, k)
  {
    assert ([y] + u)[1..] == u;
  }

  /** The sort permutes its input, orders it by non-increasing score, and is stable. */
  lemma {:induction false} ReverseOrderSortCorrect(s: seq<GameRecord>)
    ensures multiset(ReverseOrderSort(s)) == multiset(s)
    ensures NonIncreasing(ReverseOrderSort(s))
    ensures forall k :: WithScore(ReverseOrderSort(s), k) == WithScore(s, k)
  {
    if s != [] {
      ReverseOrderSortCorrect(s[1..]);
      InsertContents(s[0], ReverseOrderSort(s[1..]));
      InsertNonIncreasing(s[0], ReverseOrderSort(s[1..]));
      assert s == [s[0]] + s[1..];
      forall k ensures WithScore(ReverseOrderSort(s), k) == WithScore(s, k) {
        InsertWithScore(s[0], ReverseOrderSort(s[1..]), k);
      }
    }
  }

  lemma {:induction false} WithScorePrefix(u: seq<GameRecord>, m: nat, k: int)
    requires m <= |u|
    ensures WithScore(u[..m], k) <= WithScore(u, k)
  {
    if m > 0 {
      WithScorePrefix(u[1..], m - 1, k);
      assert u[..m][1..] == u[1..][..m - 1];
    }
  }

  /** In a list ordered by non-increasing score, no record after position m beats one before it. */
  lemma SplitOrdered(u: seq<GameRecord>, m: nat)
    requires NonIncreasing(u) && m <= |u|
    ensures forall x, y :: x in multiset(u[m..]) && y in u[..m] ==> x.score <= y.score
  {
    forall x, y | x in multiset(u[m..]) && y in u[..m] ensures x.score <= y.score {
      var j :| 0 <= j < |u[m..]| && u[m..][j] == x;
      var i :| 0 <= i < |u[..m]| && u[..m][i] == y;
      assert u[m + j] == x && u[i] == y;
    }
  }

  /** Removing a prefix's records from a list's multiset leaves the suffix's records. */
  lemma SplitMultiset(u: seq<GameRecord>, m: nat)
    requires m <= |u|
    ensures multiset(u) - multiset(u[..m]) == multiset(u[m..])
  {
    assert u == u[..m] + u[m..];
  }

  /** No record outside a prefix of a list ordered by non-increasing score beats one inside it. */
  lemma PrefixDominates(u: seq<GameRecord>, s: seq<GameRecord>, m: nat)
    requires m <= |u| && multiset(u) == multiset(s) && NonIncreasing(u)
    ensures multiset(u[..m]) <= multiset(s)
    ensures forall x, y :: x in multiset(s) - multiset(u[..m]) && y in u[..m] ==> x.score <= y.score
  {
    assert u == u[..m] + u[m..];
    SplitMultiset(u, m);
    SplitOrdered(u, m);
  }

  /** A prefix of a stable rearrangement keeps, per score, the earliest records of s. */
  lemma PrefixStable(u: seq<GameRecord>, s: seq<GameRecord>, m: nat)
    requires m <= |u|
    requires forall k :: WithScore(u, k) == WithScore(s, k)
    ensures forall k :: WithScore(u[..m], k) <= WithScore(s, k)
  {
    forall k ensures WithScore(u[..m], k) <= WithScore(s, k) {
      WithScorePrefix(u, m, k);
    }
  }

  /** A prefix of a sorted, stable rearrangement of s is a top list of s. */
  lemma PrefixIsTopList(u: seq<GameRecord>, s: seq<GameRecord>, n: int)
    requires n >= 0 && |u| == |s| && multiset(u) == multiset(s) && NonIncreasing(u)
    requires forall k :: WithScore(u, k) == WithScore(s, k)
    ensures IsTopList(u[..Min(n, |s|)], s, n)
  {
    PrefixDominates(u, s, Min(n, |s|));
    PrefixStable(u, s, Min(n, |s|));
  }

  /** The top-n slice of the sorted copy is a top-n list of the records. */
  lemma TopIsTopList(s: seq<GameRecord>, n: int)
    requires n >= 0
    ensures IsTopList(Top(s, n), s, n)
  {
    ReverseOrderSortCorrect(s);
    PrefixIsTopList(ReverseOrderSort(s), s, n);
  }

  class AllGamesRecord {
    var gameRecords: seq<GameRecord>

    constructor()
      ensures gameRecords == []
    {
      gameRecords := [];
    }

    method AddGameRecord(record: GameRecord)
      modifies this
      ensures gameRecords == old(gameRecords) + [record]
    {
      gameRecords := gameRecords + [record];
    }

    /** The integer mean of all scores; an empty ledger divides by zero. */
    method Average() returns (r: Result<int, Error>)
      ensures gameRecords == [] ==> r == Err(DivisionByZero)
      ensures gameRecords != [] ==> r == Ok(Quot(Sum(gameRecords), |gameRecords|))
      ensures r.Ok? ==> MinScore(gameRecords) <= r.value <= MaxScore(gameRecords)
    {
      var sum := 0;
      for i := 0 to |gameRecords|
        invariant sum == Sum(gameRecords[..i])
      {
        assert gameRecords[..i + 1][..i] == gameRecords[..i];
        sum := sum + gameRecords[i].score;
      }
      assert gameRecords[..|gameRecords|] == gameRecords;
      if |gameRecords| == 0 {
        r := Err(DivisionByZero);
      } else {
        r := Ok(Quot(sum, |gameRecords|));
        AverageBounds(gameRecords);
      }
    }

    /** The integer mean of one player's scores; a player with no records divides by zero. */
    method AverageOf(id: string) returns (r: Result<int, Error>)
      ensures r.Err? <==> forall i :: 0 <= i < |gameRecords| ==> gameRecords[i].playerId != id
      ensures r.Err? ==> r.error == DivisionByZero
      ensures r.Ok? ==> |OfPlayer(gameRecords, id)| > 0
      ensures r.Ok? ==> r.value == Quot(Sum(OfPlayer(gameRecords, id)), |OfPlayer(gameRecords, id)|)
      ensures r.Ok? ==> MinScore(OfPlayer(gameRecords, id)) <= r.value <= MaxScore(OfPlayer(gameRecords, id))
    {
      var sum, gamesPlayed := TotalOf(id);
      r := if gamesPlayed == 0 then Err(DivisionByZero) else Ok(Quot(sum, gamesPlayed));
      NoPlayerRecords(gameRecords, id);
      if gamesPlayed > 0 {
        AverageBounds(OfPlayer(gameRecords, id));
      }
    }

    /** The loop of `average(playerId)`: the sum of one player's scores and the number of their games. */
    method TotalOf(id: string) returns (sum: int, gamesPlayed: nat)
      ensures sum == Sum(OfPlayer(gameRecords, id)) && gamesPlayed == |OfPlayer(gameRecords, id)|
    {
      var records := gameRecords;
      sum, gamesPlayed := 0, 0;
      for i := 0 to |records|
        invariant sum == Sum(OfPlayer(records[..i], id))
        invariant gamesPlayed == |OfPlayer(records[..i], id)|
      {
        OfPlayerSumStep(records, i, id);
        if records[i].playerId == id {
          sum := sum + records[i].score;
          gamesPlayed := gamesPlayed + 1;
        }
      }
      assert records[..|records|] == records;
    }

    /** The n best records, stable on ties; the ledger itself is left as it is. */
    method HighGameList(n: int) returns (r: Result<seq<GameRecord>, Error>)
      ensures r.Err? <==> n < 0
      ensures r.Err? ==> r.error == IllegalArgument
      ensures r.Ok? ==> IsTopList(r.value, gameRecords, n)
    {
      var list := gameRecords;
      list := ReverseOrderSort(list);
      var end := Min(n, |list|);
      ReverseOrderSortCorrect(gameRecords);
      assert |list| == |multiset(list)| == |gameRecords|;
      if end < 0 {
        r := Err(IllegalArgument);
      } else {
        r := Ok(list[..end]);
        TopIsTopList(gameRecords, n);
      }
    }

    /** The n best records of one player, stable on ties. */
    method HighGameListOf(id: string, n: int) returns (r: Result<seq<GameRecord>, Error>)
      ensures r.Err? <==> n < 0
      ensures r.Err? ==> r.error == IllegalArgument
      ensures r.Ok? ==> IsTopList(r.value, OfPlayer(gameRecords, id), n)
      ensures r.Ok? ==> forall i :: 0 <= i < |r.value| ==> r.value[i].playerId == id
    {
      var list := RecordsOf(id);
      var mine := list;
      list := ReverseOrderSort(list);
      var end := Min(n, |list|);
      ReverseOrderSortCorrect(mine);
      assert |list| == |multiset(list)| == |mine|;
      if end < 0 {
        r := Err(IllegalArgument);
      } else {
        r := Ok(list[..end]);
        TopIsTopList(mine, n);
        forall i | 0 <= i < |r.value| ensures r.value[i].playerId == id {
          assert r.value[i] in multiset(r.value);
          assert r.value[i] in multiset(mine);
        }
      }
    }

    /** The loop of `highGameList(playerId, n)`: the player's records, in ledger order. */
    method RecordsOf(id: string) returns (list: seq<GameRecord>)
      ensures list == OfPlayer(gameRecords, id)
    {
      var records := gameRecords;
      list := [];
      for i := 0 to |records|
        invariant list == OfPlayer(records[..i], id)
      {
        OfPlayerStep(records, i, id);
        if records[i].playerId == id {
          list := list + [records[i]];
        }
      }
      assert records[..|records|] == records;
    }
  }
}
