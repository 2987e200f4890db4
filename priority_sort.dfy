/**
 * The order in which planning examines the backlog: a stable sort by
 * ascending priority (Python's `sorted` with key `priority`). It is computed
 * on backlog positions, so that stability can be stated: the result orders
 * positions by (priority, position), lexicographically.
 */
module PrioritySort {
  import opened Stories

  /** Position `i` comes before position `j`: lower priority, or equal priority and earlier in the backlog. */
  predicate Before(b: seq<UserStory>, i: nat, j: nat)
    requires i < |b| && j < |b|
  {
    b[i].priority < b[j].priority || (b[i].priority == b[j].priority && i < j)
  }

  predicate InBacklog(b: seq<UserStory>, s: seq<nat>) {
    forall k | 0 <= k < |s| :: s[k] < |b|
  }

  predicate InPriorityOrder(b: seq<UserStory>, s: seq<nat>)
    requires InBacklog(b, s)
  {
    forall j, k | 0 <= j < k < |s| :: Before(b, s[j], s[k])
  }

  /** The positions 0, 1, ..., n - 1. */
  function Positions(n: nat): (s: seq<nat>)
    ensures |s| == n && forall k | 0 <= k < n :: s[k] == k
  {
    if n == 0 then [] else Positions(n - 1) + [n - 1]
  }

  /** Insert position `i` after every position whose priority is at most that of `i`. */
  function Insert(b: seq<UserStory>, i: nat, s: seq<nat>): (r: seq<nat>)
    requires i < |b| && InBacklog(b, s)
    ensures |r| == |s| + 1
    ensures forall k | 0 <= k < |r| :: r[k] == i || r[k] in s
    ensures InBacklog(b, r)
  {
    if s == [] then [i]
    else if b[s[0]].priority <= b[i].priority then
      assert s == [s[0]] + s[1..];
      [s[0]] + Insert(b, i, s[1..])
    else [i] + s
  }

  /** The first `n` backlog positions in the order planning examines them. */
  function SortedPositions(b: seq<UserStory>, n: nat): (r: seq<nat>)
    requires n <= |b|
    ensures |r| == n
    ensures forall k | 0 <= k < n :: r[k] < n
  {
    if n == 0 then [] else Insert(b, n - 1, SortedPositions(b, n - 1))
  }

  function Pick(b: seq<UserStory>, s: seq<nat>): (r: seq<UserStory>)
    requires InBacklog(b, s)
    ensures |r| == |s| && forall k | 0 <= k < |s| :: r[k] == b[s[k]]
  {
    if s == [] then [] else [b[s[0]]] + Pick(b, s[1..])
  }

  /** `sorted(backlog, key=lambda s: s.priority)`. */
  function SortByPriority(b: seq<UserStory>): seq<UserStory> {
    Pick(b, SortedPositions(b, |b|))
  }

  lemma {:induction false} InsertKeepsOrder(b: seq<UserStory>, i: nat, s: seq<nat>)
    requires i < |b| && InBacklog(b, s) && InPriorityOrder(b, s)
    requires forall k | 0 <= k < |s| :: s[k] < i
    ensures InPriorityOrder(b, Insert(b, i, s))
  {
    if s == [] {
    } else if b[s[0]].priority <= b[i].priority {
      InsertKeepsOrder(b, i, s[1..]);
      var t := Insert(b, i, s[1..]);
      forall k | 0 <= k < |t| ensures Before(b, s[0], t[k]) {
        assert t[k] in t;
        if t[k] != i {
          assert t[k] in s[1..];
        }
      }
    } else {
      var r := [i] + s;
      forall k | 0 <= k < |s| ensures Before(b, i, s[k]) {
        if k > 0 { assert Before(b, s[0], s[k]); }
      }
      assert forall j, k | 0 < j < k < |r| :: r[j] == s[j - 1] && r[k] == s[k - 1];
    }
  }

  lemma {:induction false} SortedPositionsInOrder(b: seq<UserStory>, n: nat)
    requires n <= |b|
    ensures InPriorityOrder(b, SortedPositions(b, n))
  {
    if n > 0 {
      SortedPositionsInOrder(b, n - 1);
      InsertKeepsOrder(b, n - 1, SortedPositions(b, n - 1));
    }
  }

  lemma {:induction false} InsertAddsOne(b: seq<UserStory>, i: nat, s: seq<nat>)
    requires i < |b| && InBacklog(b, s)
    ensures multiset(Insert(b, i, s)) == multiset(s) + multiset{i}
  {
    if s != [] && b[s[0]].priority <= b[i].priority {
      InsertAddsOne(b, i, s[1..]);
      calc {
        multiset(Insert(b, i, s));
        multiset([s[0]] + Insert(b, i, s[1..]));
        multiset([s[0]]) + multiset(Insert(b, i, s[1..]));
        multiset([s[0]]) + multiset(s[1..]) + multiset{i};
        { assert s == [s[0]] + s[1..]; }
        multiset(s) + multiset{i};
      }
    }
  }

  lemma {:induction false} PickInsertAddsOne(b: seq<UserStory>, i: nat, s: seq<nat>)
    requires i < |b| && InBacklog(b, s)
    ensures multiset(Pick(b, Insert(b, i, s))) == multiset(Pick(b, s)) + multiset{b[i]}
  {
    if s != [] && b[s[0]].priority <= b[i].priority {
      PickInsertAddsOne(b, i, s[1..]);
      var t := Insert(b, i, s[1..]);
      calc {
        multiset(Pick(b, Insert(b, i, s)));
        multiset(Pick(b, [s[0]] + t));
        { assert Pick(b, [s[0]] + t) == [b[s[0]]] + Pick(b, t); }
        multiset([b[s[0]]]) + multiset(Pick(b, t));
        multiset([b[s[0]]]) + multiset(Pick(b, s[1..])) + multiset{b[i]};
        { assert Pick(b, s) == [b[s[0]]] + Pick(b, s[1..]); }
        multiset(Pick(b, s)) + multiset{b[i]};
      }
    } else {
      assert Pick(b, Insert(b, i, s)) == [b[i]] + Pick(b, s);
    }
  }

  lemma {:induction false} SortedPositionsPermute(b: seq<UserStory>, n: nat)
    requires n <= |b|
    ensures multiset(SortedPositions(b, n)) == multiset(Positions(n))
  {
    if n > 0 {
      SortedPositionsPermute(b, n - 1);
      InsertAddsOne(b, n - 1, SortedPositions(b, n - 1));
      assert Positions(n) == Positions(n - 1) + [n - 1];
    }
  }

  lemma {:induction false} PickSortedPositions(b: seq<UserStory>, n: nat)
    requires n <= |b|
    ensures multiset(Pick(b, SortedPositions(b, n))) == multiset(b[..n])
  {
    if n > 0 {
      PickSortedPositions(b, n - 1);
      PickSortedStep(b, n);
    }
  }

  lemma PickSortedStep(b: seq<UserStory>, n: nat)
    requires 0 < n <= |b|
    requires multiset(Pick(b, SortedPositions(b, n - 1))) == multiset(b[..n - 1])
    ensures multiset(Pick(b, SortedPositions(b, n))) == multiset(b[..n])
  {
    var s := SortedPositions(b, n - 1);
    PickInsertAddsOne(b, n - 1, s);
    PrefixAddsOne(b, n);
    assert SortedPositions(b, n) == Insert(b, n - 1, s);
  }

  lemma PrefixAddsOne(b: seq<UserStory>, n: nat)
    requires 0 < n <= |b|
    ensures multiset(b[..n]) == multiset(b[..n - 1]) + multiset{b[n - 1]}
  {
    assert b[..n] == b[..n - 1] + [b[n - 1]];
  }

  /**
   * The sort is stable and complete: every backlog position occurs exactly
   * once, positions appear by ascending priority, and positions of equal
   * priority keep their backlog order.
   */
  lemma SortIsStablePermutation(b: seq<UserStory>)
    ensures multiset(SortedPositions(b, |b|)) == multiset(Positions(|b|))
    ensures forall j, k | 0 <= j < k < |b| ::
      var p := SortedPositions(b, |b|);
      b[p[j]].priority < b[p[k]].priority || (b[p[j]].priority == b[p[k]].priority && p[j] < p[k])
  {
    SortedPositionsPermute(b, |b|);
    SortedPositionsInOrder(b, |b|);
  }

  /** The sorted backlog holds exactly the backlog's stories, by non-decreasing priority. */
  lemma SortByPriorityCorrect(b: seq<UserStory>)
    ensures |SortByPriority(b)| == |b|
    ensures multiset(SortByPriority(b)) == multiset(b)
    ensures forall j, k | 0 <= j < k < |b| :: SortByPriority(b)[j].priority <= SortByPriority(b)[k].priority
  {
    PickSortedPositions(b, |b|);
    assert b[..|b|] == b;
    SortedPositionsInOrder(b, |b|);
  }
}
