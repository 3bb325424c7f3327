/** The votes dictionary: a map from the stringified user id to the vote,
    whose iteration order is the order in which keys were first inserted.
    The order is kept as a sequence of keys beside the map. */
module VoteTable {
  import opened Ballot
  import opened Tally

  /** The keys of the map, each exactly once, in insertion order. */
  ghost predicate Ordered(order: seq<string>, votes: map<string, Vote>) {
    && (forall i, j :: 0 <= i < j < |order| ==> order[i] != order[j])
    && (forall k :: k in votes <==> k in order)
  }

  /** votes.values(), in dictionary order. */
  function ValuesInOrder(order: seq<string>, votes: map<string, Vote>): (vs: seq<Vote>)
    requires forall k :: k in order ==> k in votes
  {
    seq(|order|, i requires 0 <= i < |order| => votes[order[i]])
  }

  /** The key order after votes[key] = ...: a new key goes last, an existing
      key keeps its place. */
  function PutOrder(order: seq<string>, votes: map<string, Vote>, key: string): (r: seq<string>)
    ensures |r| == |order| + (if key in votes then 0 else 1)
    ensures r[..|order|] == order
    ensures key !in votes ==> r[|order|] == key
  {
    if key in votes then order else order + [key]
  }

  /** The position of a key in the order. */
  function IndexOf(order: seq<string>, key: string): (i: nat)
    requires key in order
    ensures i < |order| && order[i] == key
  {
    if order[|order| - 1] == key then |order| - 1 else IndexOf(order[..|order| - 1], key)
  }

  lemma {:induction false} DistinctCard(order: seq<string>)
    requires forall i, j :: 0 <= i < j < |order| ==> order[i] != order[j]
    ensures |set k | k in order| == |order|
  {
    if order != [] {
      var n := |order| - 1;
      DistinctCard(order[..n]);
      assert (set k | k in order) == (set k | k in order[..n]) + {order[n]};
      assert order[n] !in (set k | k in order[..n]);
    }
  }

  /** len(votes) is the number of keys in the order. */
  lemma OrderedSize(order: seq<string>, votes: map<string, Vote>)
    requires Ordered(order, votes)
    ensures |votes| == |order| == |ValuesInOrder(order, votes)|
  {
    DistinctCard(order);
    assert votes.Keys == set k | k in order;
  }

  /** Storing a vote keeps the order and the map in step. */
  lemma PutOrdered(order: seq<string>, votes: map<string, Vote>, key: string, v: Vote)
    requires Ordered(order, votes)
    ensures Ordered(PutOrder(order, votes, key), votes[key := v])
  {
    var r := PutOrder(order, votes, key);
    forall k
      ensures k in votes[key := v] <==> k in r
    {
      if k !in votes && k != key {
        assert k !in order;
      }
    }
  }

  /** Storing a vote for a known key replaces that voter's vote in place;
      for a new key it appends the vote after all others. */
  lemma PutValues(order: seq<string>, votes: map<string, Vote>, key: string, v: Vote)
    requires Ordered(order, votes)
    ensures key in votes ==>
              ValuesInOrder(PutOrder(order, votes, key), votes[key := v])
              == ValuesInOrder(order, votes)[IndexOf(order, key) := v]
    ensures key !in votes ==>
              ValuesInOrder(PutOrder(order, votes, key), votes[key := v])
              == ValuesInOrder(order, votes) + [v]
  {
    PutOrdered(order, votes, key, v);
    var before := ValuesInOrder(order, votes);
    var after := ValuesInOrder(PutOrder(order, votes, key), votes[key := v]);
    if key in votes {
      var i := IndexOf(order, key);
      forall j | 0 <= j < |order|
        ensures after[j] == before[i := v][j]
      {
        if j != i {
          assert order[j] != key;
        }
      }
    } else {
      assert key !in order;
      forall j | 0 <= j < |order|
        ensures after[j] == before[j]
      {
        assert order[j] != key;
      }
    }
  }

  /** Replacing one vote moves one unit of count from its old answer to its new one. */
  lemma {:induction false} CountAfterReplace(vs: seq<Vote>, i: nat, v: Vote, c: Choice)
    requires i < |vs|
    ensures Count(vs[i := v], c) + (if vs[i].choice == c then 1 else 0)
         == Count(vs, c) + (if v.choice == c then 1 else 0)
  {
    var n := |vs| - 1;
    var w := vs[i := v];
    if i == n {
      assert w[..n] == vs[..n];
    } else {
      assert w[..n] == vs[..n][i := v];
      CountAfterReplace(vs[..n], i, v, c);
    }
  }

  /** Appending a vote adds one to the count of its answer only. */
  lemma CountAfterAppend(vs: seq<Vote>, v: Vote, c: Choice)
    ensures Count(vs + [v], c) == Count(vs, c) + (if v.choice == c then 1 else 0)
  {
    assert (vs + [v])[..|vs|] == vs;
  }

  /** Last write wins in the tally: after a user votes, their previous vote
      (if any) no longer counts and the new one counts once. */
  lemma PutCount(order: seq<string>, votes: map<string, Vote>, key: string, v: Vote, c: Choice)
    requires Ordered(order, votes)
    ensures Count(ValuesInOrder(PutOrder(order, votes, key), votes[key := v]), c)
            + (if key in votes && votes[key].choice == c then 1 else 0)
         == Count(ValuesInOrder(order, votes), c) + (if v.choice == c then 1 else 0)
  {
    PutValues(order, votes, key, v);
    if key in votes {
      CountAfterReplace(ValuesInOrder(order, votes), IndexOf(order, key), v, c);
    } else {
      CountAfterAppend(ValuesInOrder(order, votes), v, c);
    }
  }

  /** A second vote by the same user leaves the dictionary exactly as if only
      the second vote had been cast. */
  lemma PutTwice(order: seq<string>, votes: map<string, Vote>, key: string, v1: Vote, v2: Vote)
    ensures PutOrder(PutOrder(order, votes, key), votes[key := v1], key) == PutOrder(order, votes, key)
    ensures votes[key := v1][key := v2] == votes[key := v2]
  {
  }
}
