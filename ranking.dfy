// The high-score table shared by omission/data/scoreboard.py and the older
// Scoreboard of omission/scores/score_loader.py: an OrderedDict from score to
// name, kept sorted from the highest score down and cut to a fixed size.
// Here the table is the sequence of its (score, name) items in order.

module Ranking {

  datatype Entry = Entry(score: int, name: string)

  /** The keys of an OrderedDict are distinct. */
  predicate DistinctKeys(s: seq<Entry>)
  {
    forall i, j :: 0 <= i < j < |s| ==> s[i].score != s[j].score
  }

  /** Strictly descending scores (which makes the keys distinct). */
  predicate Descending(s: seq<Entry>)
  {
    forall i, j :: 0 <= i < j < |s| ==> s[i].score > s[j].score
  }

  predicate HasScore(s: seq<Entry>, score: int)
  {
    exists i :: 0 <= i < |s| && s[i].score == score
  }

  /** `table[score] = name`: replace the name in place when the score is a key, else append. */
  function Upsert(s: seq<Entry>, score: int, name: string): (r: seq<Entry>)
    ensures HasScore(r, score)
    ensures |s| <= |r| <= |s| + 1
  {
    if |s| == 0 then
      var r := [Entry(score, name)];
      assert r[0].score == score;
      r
    else if s[0].score == score then
      var r := [Entry(score, name)] + s[1..];
      assert r[0].score == score;
      r
    else
      var rest := Upsert(s[1..], score, name);
      var k :| 0 <= k < |rest| && rest[k].score == score;
      assert ([s[0]] + rest)[k + 1].score == score;
      [s[0]] + rest
  }

  /**
   * An existing score keeps its place and only its name changes, so the
   * table does not grow; a new score is appended at the end.
   */
  lemma {:induction false} UpsertEffect(s: seq<Entry>, score: int, name: string)
    requires DistinctKeys(s)
    ensures DistinctKeys(Upsert(s, score, name))
    ensures forall i :: 0 <= i < |s| && s[i].score == score ==> Upsert(s, score, name) == s[i := Entry(score, name)]
    ensures !HasScore(s, score) ==> Upsert(s, score, name) == s + [Entry(score, name)]
    decreases |s|
  {
    if |s| > 0 && s[0].score != score {
      var t := s[1..];
      UpsertEffect(t, score, name);
      var r := Upsert(s, score, name);
      assert r == [s[0]] + Upsert(t, score, name);
      forall i | 0 <= i < |s| && s[i].score == score
        ensures r == s[i := Entry(score, name)]
      {
        assert t[i - 1].score == score;
      }
      UpsertMembers(t, score, name);
      forall i, j | 0 <= i < j < |r|
        ensures r[i].score != r[j].score
      {
        if i == 0 {
          assert r[j] in Upsert(t, score, name);
          if r[j].score != score {
            assert r[j] in t;
          }
        }
      }
    }
  }

  /** Every item after the assignment is the new one or an old one. */
  lemma {:induction false} UpsertMembers(s: seq<Entry>, score: int, name: string)
    ensures forall x :: x in Upsert(s, score, name) ==> x == Entry(score, name) || x in s
    decreases |s|
  {
    if |s| > 0 && s[0].score != score {
      UpsertMembers(s[1..], score, name);
    }
  }

  /** Insert into a descending table below every higher score. */
  function InsertDesc(e: Entry, s: seq<Entry>): (r: seq<Entry>)
    ensures multiset(r) == multiset(s) + multiset{e}
    ensures |r| == |s| + 1
  {
    if |s| == 0 then [e]
    else if e.score >= s[0].score then [e] + s
    else
      assert s == [s[0]] + s[1..];
      [s[0]] + InsertDesc(e, s[1..])
  }

  /** `reversed(sorted(table.items()))` for distinct keys: the items from the highest score down. */
  function SortDesc(s: seq<Entry>): (r: seq<Entry>)
    ensures multiset(r) == multiset(s)
    ensures |r| == |s|
  {
    if |s| == 0 then []
    else
      assert s == [s[0]] + s[1..];
      InsertDesc(s[0], SortDesc(s[1..]))
  }

  lemma {:induction false} InsertDescSorted(e: Entry, s: seq<Entry>)
    requires Descending(s)
    requires forall x :: x in s ==> x.score != e.score
    ensures Descending(InsertDesc(e, s))
    decreases |s|
  {
    if |s| > 0 && e.score < s[0].score {
      var t := s[1..];
      InsertDescSorted(e, t);
      var r := InsertDesc(e, s);
      var rt := InsertDesc(e, t);
      assert r == [s[0]] + rt;
      forall j | 1 <= j < |r|
        ensures r[0].score > r[j].score
      {
        assert r[j] in multiset(rt);
        if r[j] != e {
          assert r[j] in multiset(t);
        }
      }
    }
  }

  /** The sorted items are strictly descending, a permutation of the table. */
  lemma {:induction false} SortDescSorted(s: seq<Entry>)
    requires DistinctKeys(s)
    ensures Descending(SortDesc(s))
    decreases |s|
  {
    if |s| > 0 {
      var t := s[1..];
      SortDescSorted(t);
      forall x | x in SortDesc(t)
        ensures x.score != s[0].score
      {
        assert x in multiset(t);
        var k :| 0 <= k < |t| && t[k] == x;
        assert s[k + 1] == x;
      }
      InsertDescSorted(s[0], SortDesc(t));
    }
  }

  /** A table already in descending order is left as it is. */
  lemma {:induction false} SortDescIdentity(s: seq<Entry>)
    requires Descending(s)
    ensures SortDesc(s) == s
    decreases |s|
  {
    if |s| > 0 {
      SortDescIdentity(s[1..]);
      assert s == [s[0]] + s[1..];
    }
  }

  /** `OrderedDict(islice(reversed(sorted(items)), 0, k))`: the top `k` items. */
  function TopK(s: seq<Entry>, k: nat): (r: seq<Entry>)
    ensures |r| == if |s| <= k then |s| else k
  {
    var t := SortDesc(s);
    t[..if |t| <= k then |t| else k]
  }

  /**
   * What the top-k table is: strictly descending, of size min(k, |s|),
   * made of items of the table, and every item left out scores below
   * every item kept.
   */
  lemma TopKShape(s: seq<Entry>, k: nat)
    requires DistinctKeys(s)
    ensures Descending(TopK(s, k))
    ensures forall x :: x in TopK(s, k) ==> x in s
    ensures forall x, y :: x in s && x !in TopK(s, k) && y in TopK(s, k) ==> x.score < y.score
  {
    SortDescSorted(s);
    TopKMembers(s, k);
    forall x, y | x in s && x !in TopK(s, k) && y in TopK(s, k)
      ensures x.score < y.score
    {
      TopKCut(s, k, x, y);
    }
  }

  lemma TopKMembers(s: seq<Entry>, k: nat)
    ensures forall x :: x in TopK(s, k) ==> x in s
  {
    var t := SortDesc(s);
    forall x | x in TopK(s, k)
      ensures x in s
    {
      assert x in multiset(t);
    }
  }

  lemma TopKCut(s: seq<Entry>, k: nat, x: Entry, y: Entry)
    requires DistinctKeys(s)
    requires x in s && x !in TopK(s, k) && y in TopK(s, k)
    ensures x.score < y.score
  {
    var t := SortDesc(s);
    var r := TopK(s, k);
    SortDescSorted(s);
    assert r == t[..|r|];
    assert x in multiset(t) by {
      assert x in multiset(s);
    }
    var i :| 0 <= i < |t| && t[i] == x;
    var j :| 0 <= j < |r| && r[j] == y;
    assert forall m :: 0 <= m < |r| ==> t[m] != x;
    assert t[j] == y && j < |r| <= i;
  }

  /** With room for every item, nothing is cut. */
  lemma TopKKeepsAll(s: seq<Entry>, k: nat)
    requires |s| <= k
    ensures multiset(TopK(s, k)) == multiset(s)
  {
    assert TopK(s, k) == SortDesc(s);
  }

  /**
   * `check_score(n)`: a table below `k` items always wants the score;
   * a full one wants it when some stored score is lower.
   */
  predicate Worthy(s: seq<Entry>, k: nat, n: int): (w: bool)
    ensures Descending(s) && k <= |s| && |s| > 0 ==> (w <==> s[|s| - 1].score < n)
  {
    |s| < k || exists i :: 0 <= i < |s| && s[i].score < n
  }

  /**
   * On a full table, for a score that is not yet a key, the check says yes
   * exactly when adding the score keeps it in the table.
   */
  lemma CheckMeansKept(s: seq<Entry>, k: nat, n: int, name: string)
    requires Descending(s) && |s| == k
    requires !HasScore(s, n)
    ensures Worthy(s, k, n) <==> HasScore(TopK(Upsert(s, n, name), k), n)
  {
    var e := Entry(n, name);
    var u := Upsert(s, n, name);
    UpsertEffect(s, n, name);
    assert u == s + [e];
    var t := SortDesc(u);
    SortDescSorted(u);
    assert e in multiset(t) by { assert u[|s|] == e; }
    if Worthy(s, k, n) {
      WorthyKept(s, k, e, t);
    }
    if HasScore(TopK(u, k), n) {
      KeptWorthy(s, k, e, t);
    }
  }

  lemma WorthyKept(s: seq<Entry>, k: nat, e: Entry, t: seq<Entry>)
    requires |s| == k && |t| == k + 1 && Descending(t) && multiset(t) == multiset(s + [e])
    requires exists i :: 0 <= i < |s| && s[i].score < e.score
    ensures HasScore(t[..k], e.score)
  {
    var i :| 0 <= i < |s| && s[i].score < e.score;
    var m := s[i];
    assert m in multiset(t) by { assert (s + [e])[i] == m; }
    assert e in multiset(t) by { assert (s + [e])[k] == e; }
    var a :| 0 <= a < |t| && t[a] == e;
    var b :| 0 <= b < |t| && t[b] == m;
    assert a < b;
    assert t[..k][a] == e;
  }

  lemma KeptWorthy(s: seq<Entry>, k: nat, e: Entry, t: seq<Entry>)
    requires |s| == k && |t| == k + 1 && Descending(t) && multiset(t) == multiset(s + [e])
    requires HasScore(t[..k], e.score)
    ensures exists i :: 0 <= i < |s| && s[i].score < e.score
  {
    var a :| 0 <= a < k && t[..k][a].score == e.score;
    var o := t[k];
    assert o.score < e.score;
    assert o in multiset(s + [e]);
    var j :| 0 <= j < |s + [e]| && (s + [e])[j] == o;
    assert j < k && s[j] == o;
  }

  /** The items as (score, name) tuples, in table order. */
  function Pairs(s: seq<Entry>): (r: seq<(int, string)>)
    ensures |r| == |s| && forall i :: 0 <= i < |s| ==> r[i] == (s[i].score, s[i].name)
  {
    seq(|s|, i requires 0 <= i < |s| => (s[i].score, s[i].name))
  }
}
