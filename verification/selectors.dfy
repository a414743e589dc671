/** The selector that picks the items the list view shows. */
module Selectors {
  import opened TodoModel

  /** `sub` is `s` with some elements dropped and the rest in their order. */
  ghost predicate IsSubsequence<T>(sub: seq<T>, s: seq<T>)
    decreases |s|
  {
    if sub == [] then true
    else if s == [] then false
    else (sub[0] == s[0] && IsSubsequence(sub[1..], s[1..])) || IsSubsequence(sub, s[1..])
  }

  /** `todos.filter(t => t.completed == c)`. */
  function Keep(ts: seq<Item>, c: bool): (r: seq<Item>)
    ensures |r| <= |ts|
    ensures forall i :: 0 <= i < |r| ==> r[i].completed == c
    ensures forall x :: x in r <==> x in ts && x.completed == c
    ensures IsSubsequence(r, ts)
  {
    if ts == [] then []
    else
      var rest := Keep(ts[1..], c);
      if ts[0].completed == c then
        assert ([ts[0]] + rest)[1..] == rest;
        [ts[0]] + rest
      else rest
  }

  /** `filter` keeps every occurrence: an item appears in the result as many
      times as in the input if its flag is `c`, and not at all otherwise. */
  lemma {:induction false} KeepCount(ts: seq<Item>, c: bool, x: Item)
    ensures multiset(Keep(ts, c))[x] == if x.completed == c then multiset(ts)[x] else 0
  {
    if ts != [] {
      KeepCount(ts[1..], c, x);
      assert ts == [ts[0]] + ts[1..];
      if ts[0].completed == c {
        assert Keep(ts, c) == [ts[0]] + Keep(ts[1..], c);
      }
    }
  }

  /** The items shown under `filter`. Only the two filtering values select;
      `SHOW_ALL` and every unrecognised string show the whole list. */
  function VisibleTodos(ts: seq<Item>, filter: string): (r: seq<Item>)
    ensures filter != ShowCompleted && filter != ShowActive ==> r == ts
    ensures filter == ShowCompleted || filter == ShowActive ==>
              && IsSubsequence(r, ts)
              && forall x :: x in r <==> x in ts && x.completed == (filter == ShowCompleted)
  {
    if filter == ShowAll then ts
    else if filter == ShowCompleted then Keep(ts, true)
    else if filter == ShowActive then Keep(ts, false)
    else ts
  }

  /** Each filtering view holds every matching item exactly as often as the
      list does, duplicates included, and no other item. */
  lemma VisibleCounts(ts: seq<Item>, x: Item)
    ensures multiset(VisibleTodos(ts, ShowCompleted))[x] == if x.completed then multiset(ts)[x] else 0
    ensures multiset(VisibleTodos(ts, ShowActive))[x] == if x.completed then 0 else multiset(ts)[x]
  {
    KeepCount(ts, true, x);
    KeepCount(ts, false, x);
  }

  /** The `completed` flag of every item, in order. */
  function Flags(ts: seq<Item>): (r: seq<bool>)
    ensures |r| == |ts|
    ensures forall i :: 0 <= i < |ts| ==> r[i] == ts[i].completed
  {
    if ts == [] then [] else [ts[0].completed] + Flags(ts[1..])
  }

  /** Interleaves `done` and `active`, taking from `done` where `pattern` is
      true and from `active` where it is false; stops early if the chosen
      side has run out. */
  function MergeBy(pattern: seq<bool>, done: seq<Item>, active: seq<Item>): (r: seq<Item>)
  {
    if pattern == [] then []
    else if pattern[0] then
      if done == [] then [] else [done[0]] + MergeBy(pattern[1..], done[1..], active)
    else
      if active == [] then [] else [active[0]] + MergeBy(pattern[1..], done, active[1..])
  }

  /** The completed and the active views split the list: merged back along
      the items' flags they give the list in its original order. */
  lemma {:induction false} PartitionRoundTrip(ts: seq<Item>)
    ensures MergeBy(Flags(ts), VisibleTodos(ts, ShowCompleted), VisibleTodos(ts, ShowActive)) == ts
  {
    KeepMerge(ts);
  }

  /** The round trip for `Keep` itself, by induction on the list. */
  lemma {:induction false} KeepMerge(ts: seq<Item>)
    ensures MergeBy(Flags(ts), Keep(ts, true), Keep(ts, false)) == ts
  {
    if ts != [] {
      KeepMerge(ts[1..]);
      assert Flags(ts)[1..] == Flags(ts[1..]);
      if ts[0].completed {
        assert Keep(ts, true)[1..] == Keep(ts[1..], true);
      } else {
        assert Keep(ts, false)[1..] == Keep(ts[1..], false);
      }
      assert ts == [ts[0]] + ts[1..];
    }
  }

  /** The completed and the active views together hold every item exactly
      once: their lengths add up and their contents make up the list. */
  lemma {:induction false} PartitionSizes(ts: seq<Item>)
    ensures |VisibleTodos(ts, ShowCompleted)| + |VisibleTodos(ts, ShowActive)| == |ts|
    ensures multiset(VisibleTodos(ts, ShowCompleted)) + multiset(VisibleTodos(ts, ShowActive))
            == multiset(ts)
  {
    KeepSizes(ts);
  }

  /** The length and multiset split for `Keep` itself, by induction on the list. */
  lemma {:induction false} KeepSizes(ts: seq<Item>)
    ensures |Keep(ts, true)| + |Keep(ts, false)| == |ts|
    ensures multiset(Keep(ts, true)) + multiset(Keep(ts, false)) == multiset(ts)
  {
    if ts != [] {
      KeepSizes(ts[1..]);
      assert ts == [ts[0]] + ts[1..];
    }
  }
}
