// The passage source: omission/game/contentloader.py and its later copy
// omission/game/content_loader.py hold the same `get_next`/`reshuffle` walk.
// Reading and splitting the content file is outside the model: the
// constructor receives the passages, and every `random.shuffle` is replaced
// by an `order` argument that must be a permutation of the current passages.

module Loader {

  /** The state of the walk: the passages in their current order and the next index. */
  datatype Walk = Walk(content: seq<string>, index: nat)
  {
    ghost predicate Valid() { |content| >= 1 && index <= |content| }

    /** Whether `order` is a possible outcome of `random.shuffle(content)`. */
    ghost predicate Shuffles(order: seq<string>) { multiset(order) == multiset(content) }

    /**
     * One `get_next` call: step forward while passages remain; once the walk
     * is exhausted, reshuffle into `order`, restart at 0 and return
     * `content[-1]` of the new order, i.e. its last passage.
     */
    function Next(order: seq<string>): (r: (string, Walk))
      requires Valid() && Shuffles(order)
      ensures r.1.Valid() && multiset(r.1.content) == multiset(content)
      ensures index < |content| ==> r.0 == content[index] && r.1 == Walk(content, index + 1)
      ensures index == |content| ==> r.0 == order[|order| - 1] && r.1 == Walk(order, 0)
      ensures r.0 in multiset(content)
    {
      assert |order| == |multiset(order)| == |multiset(content)| == |content|;
      if index >= |content| then (order[|order| - 1], Walk(order, 0))
      else (content[index], Walk(content, index + 1))
    }
  }

  /** The passages served by `n` successive calls, reshuffling into `orders[0]`, `orders[1]`, ... */
  ghost function Serve(w: Walk, orders: seq<seq<string>>, n: nat): seq<string>
    requires w.Valid()
    requires forall i :: 0 <= i < |orders| ==> multiset(orders[i]) == multiset(w.content)
    decreases n
  {
    if n == 0 then []
    else if w.index < |w.content| then [w.content[w.index]] + Serve(Walk(w.content, w.index + 1), orders, n - 1)
    else if |orders| == 0 then []
    else
      var s := w.Next(orders[0]);
      [s.0] + Serve(s.1, orders[1..], n - 1)
  }

  /** From index i, the next |content| - i calls serve the rest of the walk in stored order. */
  lemma {:induction false} ServeRest(content: seq<string>, i: nat, orders: seq<seq<string>>)
    requires 1 <= |content| && i <= |content|
    requires forall k :: 0 <= k < |orders| ==> multiset(orders[k]) == multiset(content)
    ensures Serve(Walk(content, i), orders, |content| - i) == content[i..]
    decreases |content| - i
  {
    if i < |content| {
      ServeRest(content, i + 1, orders);
    }
  }

  /** A fresh walk serves every passage exactly once, in stored order. */
  lemma ServeFromStart(content: seq<string>, orders: seq<seq<string>>)
    requires 1 <= |content|
    requires forall k :: 0 <= k < |orders| ==> multiset(orders[k]) == multiset(content)
    ensures Serve(Walk(content, 0), orders, |content|) == content
  {
    ServeRest(content, 0, orders);
  }

  /**
   * After exhaustion a full cycle serves the last passage of the new order,
   * then the whole new order: that passage comes twice in the cycle.
   */
  lemma ServeAfterExhaustion(content: seq<string>, order: seq<string>, orders: seq<seq<string>>)
    requires 1 <= |content| && multiset(order) == multiset(content)
    requires forall k :: 0 <= k < |orders| ==> multiset(orders[k]) == multiset(content)
    ensures |order| == |content|
    ensures Serve(Walk(content, |content|), [order] + orders, |content| + 1) == [order[|order| - 1]] + order
  {
    var w := Walk(content, |content|);
    var all := [order] + orders;
    assert |order| == |multiset(order)| == |content|;
    assert all[1..] == orders;
    ServeFromStart(order, orders);
  }

  class ContentLoader {
    var content: seq<string>
    var index: nat

    ghost predicate Valid()
      reads this
    {
      Walk(content, index).Valid()
    }

    /** The walk as a value. */
    function State(): Walk
      reads this
    {
      Walk(content, index)
    }

    /**
     * `__init__` after the file is read: the passages are stored, the index
     * starts at 0 and the content is reshuffled into `order`.
     */
    constructor (passages: seq<string>, order: seq<string>)
      requires |passages| >= 1 && multiset(order) == multiset(passages)
      ensures Valid() && content == order && index == 0
    {
      content := passages;
      index := 0;
      new;
      assert |order| == |multiset(order)| == |passages|;
      Reshuffle(order, true);
    }

    /** `reshuffle(restart)`: permute the passages; restart the walk if asked. */
    method Reshuffle(order: seq<string>, restart: bool)
      requires Valid() && State().Shuffles(order)
      modifies this
      ensures Valid()
      ensures content == order && multiset(content) == old(multiset(content))
      ensures index == if restart then 0 else old(index)
    {
      assert |order| == |multiset(order)| == |content|;
      content := order;
      if restart {
        index := 0;
      }
    }

    /** `get_next()`: one step of the walk; `order` is used only if the walk is exhausted. */
    method GetNext(order: seq<string>) returns (passage: string)
      requires Valid() && State().Shuffles(order)
      modifies this
      ensures Valid()
      ensures (passage, State()) == old(State().Next(order))
    {
      if index >= |content| {
        Reshuffle(order, true);
        passage := content[|content| - 1];
      } else {
        index := index + 1;
        passage := content[index - 1];
      }
    }
  }
}
