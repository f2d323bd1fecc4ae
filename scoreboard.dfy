// The six-place high-score table of omission/data/scoreboard.py.

module HighScores {
  import opened Ranking

  /** Adding a score that is already a key only renames it: nothing moves and nothing is cut. */
  lemma AddExistingRenames(s: seq<Entry>, k: nat, i: nat, name: string)
    requires Descending(s) && |s| <= k && i < |s|
    ensures TopK(Upsert(s, s[i].score, name), k) == s[i := Entry(s[i].score, name)]
  {
    UpsertEffect(s, s[i].score, name);
    var u := s[i := Entry(s[i].score, name)];
    assert Descending(u);
    SortDescIdentity(u);
  }

  /**
   * On a full table and for a score not yet in it, the check says yes
   * exactly when adding the score leaves it in the table.
   */
  lemma FullCheckMatchesAdd(s: seq<Entry>, n: int, name: string)
    requires Descending(s) && |s| == 6 && !HasScore(s, n)
    ensures Worthy(s, 6, n) <==> HasScore(TopK(Upsert(s, n, name), 6), n)
  {
    CheckMeansKept(s, 6, n, name);
  }

  /** A table with room left keeps any score added to it. */
  lemma RoomKeepsScore(s: seq<Entry>, score: int, name: string, k: nat)
    requires |s| < k
    ensures HasScore(TopK(Upsert(s, score, name), k), score)
  {
    var u := Upsert(s, score, name);
    var t := TopK(u, k);
    assert t == SortDesc(u);
    var j :| 0 <= j < |u| && u[j].score == score;
    assert u[j] in multiset(t) by {
      assert u[j] in multiset(u);
    }
    var m :| 0 <= m < |t| && t[m] == u[j];
  }

  class Scoreboard {
    /** `retain`: how many scores the table keeps. */
    const retain: nat := 6
    /** `gameround_datastring`: the settings the table belongs to. */
    const datastring: string
    var entries: seq<Entry>

    /** Between calls the table is sorted from the highest score down and holds at most six scores. */
    ghost predicate Valid()
      reads this
    {
      Descending(entries) && |entries| <= retain
    }

    constructor (datastring: string)
      ensures this.datastring == datastring && entries == [] && Valid()
    {
      this.datastring := datastring;
      entries := [];
    }

    /**
     * `add_score(score, name)`: assign the name to the score, then sort and
     * cut. The table ends up as the top six of the old items with the new
     * one, sorted.
     */
    method AddScore(score: int, name: string)
      requires Valid()
      modifies this
      ensures Valid()
      ensures entries == TopK(Upsert(old(entries), score, name), retain)
      ensures HasScore(entries, score) || |old(entries)| == retain
    {
      ghost var before := entries;
      UpsertEffect(entries, score, name);
      entries := Upsert(entries, score, name);
      SortScores();
      if |before| < retain {
        RoomKeepsScore(before, score, name, retain);
      }
    }

    /** `sort_scores()`: keep the top six, highest first. */
    method SortScores()
      requires DistinctKeys(entries)
      modifies this
      ensures Valid()
      ensures entries == TopK(old(entries), retain)
      ensures forall x, y :: x in old(entries) && x !in entries && y in entries ==> x.score < y.score
    {
      TopKShape(entries, retain);
      entries := TopK(entries, retain);
    }

    /** `check_score(new_score)`: true on a table with room, else true when some stored score is lower. */
    method CheckScore(n: int) returns (worth: bool)
      ensures worth <==> Worthy(entries, retain, n)
    {
      if |entries| >= retain {
        var i := 0;
        while i < |entries|
          invariant 0 <= i <= |entries|
          invariant forall j :: 0 <= j < i ==> entries[j].score >= n
        {
          if entries[i].score < n {
            return true;
          }
          i := i + 1;
        }
        return false;
      }
      return true;
    }

    /** `get_scores()`: the (score, name) pairs, highest first. */
    function GetScores(): (r: seq<(int, string)>)
      reads this
      requires Valid()
      ensures r == Pairs(entries)
      ensures |r| <= 6
      ensures forall i, j :: 0 <= i < j < |r| ==> r[i].0 > r[j].0
      ensures forall i :: 0 <= i < |r| ==> Entry(r[i].0, r[i].1) in entries
    {
      Pairs(entries)
    }
  }
}
