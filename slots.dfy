/** The fragment slots: one cell per content URL, written by the task that
    owns its index, and the final join that concatenates them. */
module Slots {
  import opened Outcomes

  /** `"".join(fs)` on strings: the fragments one after the other, without
      separators, so the first fragment leads the result. */
  function Concat(fs: seq<string>): (r: string)
    ensures fs != [] ==> r == fs[0] + Concat(fs[1..])
  {
    if fs == [] then ""
    else
      var init := fs[..|fs| - 1];
      assert |fs| > 1 ==> init[1..] == fs[1..][..|fs[1..]| - 1];
      Concat(init) + fs[|fs| - 1]
  }

  /** `"".join(slots)`: defined exactly when no slot is still `None`
      (Python raises TypeError otherwise). */
  function Join(slots: seq<Option<string>>): (r: Option<string>)
    ensures r.Some? <==> forall i :: 0 <= i < |slots| ==> slots[i].Some?
  {
    if slots == [] then Some("")
    else
      match (Join(slots[..|slots| - 1]), slots[|slots| - 1])
      case (Some(init), Some(last)) => Some(init + last)
      case _ => None
  }

  /** Every slot filled, slot i with fragment i. */
  function Filled(fs: seq<string>): (slots: seq<Option<string>>)
  {
    seq(|fs|, i requires 0 <= i < |fs| => Some(fs[i]))
  }

  /** Slots filled in index order join to the fragments in index order. */
  lemma {:induction false} JoinFilled(fs: seq<string>)
    ensures Join(Filled(fs)) == Some(Concat(fs))
  {
    if fs != [] {
      var init := fs[..|fs| - 1];
      JoinFilled(init);
      assert Filled(fs)[..|fs| - 1] == Filled(init);
    }
  }

  /** The list a run starts from: `n` slots, all `None`. */
  function Empty(n: nat): (slots: seq<Option<string>>)
    ensures |slots| == n && forall i :: 0 <= i < n ==> slots[i].None?
    ensures Join(slots).Some? <==> n == 0
  {
    seq(n, _ => None)
  }

  /** The task indices 0, 1, ..., n - 1. */
  function Indices(n: nat): (ix: seq<nat>)
    ensures |ix| == n && forall i :: 0 <= i < n ==> ix[i] == i
  {
    seq(n, i requires 0 <= i < n => i as nat)
  }

  /** An order in which the event loop completes the `n` tasks: every entry
      names a task, and each task appears exactly once. */
  predicate IsSchedule(order: seq<nat>, n: nat)
  {
    && (forall k :: 0 <= k < |order| ==> order[k] < n)
    && multiset(order) == multiset(Indices(n))
  }

  /** A schedule runs every one of the `n` tasks. */
  lemma ScheduleCovers(order: seq<nat>, n: nat)
    requires IsSchedule(order, n)
    ensures |order| == n
    ensures forall i :: 0 <= i < n ==> i in order
  {
    assert |multiset(order)| == |multiset(Indices(n))|;
    forall i | 0 <= i < n ensures i in order {
      assert Indices(n)[i] == i;
      assert i in multiset(Indices(n));
    }
  }

  /** Index i occurs once in the task indices 0 .. n - 1. */
  lemma {:induction false} IndicesOnce(n: nat, i: nat)
    requires i < n
    ensures multiset(Indices(n))[i] == 1
  {
    assert Indices(n) == Indices(n - 1) + [n - 1];
    if i < n - 1 {
      IndicesOnce(n - 1, i);
    } else {
      assert i !in Indices(n - 1);
    }
  }

  /** A value at two positions of a sequence occurs there at least twice. */
  lemma RepeatedCounts(s: seq<nat>, j: nat, k: nat)
    requires j < k < |s|
    ensures multiset(s)[s[k]] >= if s[j] == s[k] then 2 else 1
  {
    assert s == s[..k] + [s[k]] + s[k + 1..];
    assert s[..k][j] == s[j];
    assert multiset(s) == multiset(s[..k]) + multiset([s[k]]) + multiset(s[k + 1..]);
  }

  /** A schedule never runs a task twice. */
  lemma ScheduleRunsEachOnce(order: seq<nat>, n: nat, j: nat, k: nat)
    requires IsSchedule(order, n)
    requires j < k < |order|
    ensures order[j] != order[k]
  {
    IndicesOnce(n, order[k]);
    RepeatedCounts(order, j, k);
  }

  /** The slots after the tasks named by `order` have written, in that
      order: each task i sets slot i to fragment i. */
  function ApplyWrites(slots: seq<Option<string>>, order: seq<nat>, fs: seq<string>): (r: seq<Option<string>>)
    requires forall k :: 0 <= k < |order| ==> order[k] < |slots| && order[k] < |fs|
    ensures |r| == |slots|
  {
    if order == [] then slots
    else
      var i := order[|order| - 1];
      ApplyWrites(slots, order[..|order| - 1], fs)[i := Some(fs[i])]
  }

  /** One more completed task adds its own write on top of the earlier ones. */
  lemma ApplyWritesStep(slots: seq<Option<string>>, order: seq<nat>, fs: seq<string>, k: nat)
    requires forall j :: 0 <= j < |order| ==> order[j] < |slots| && order[j] < |fs|
    requires k < |order|
    ensures ApplyWrites(slots, order[..k + 1], fs) == ApplyWrites(slots, order[..k], fs)[order[k] := Some(fs[order[k]])]
  {
    assert order[..k + 1][..k] == order[..k];
  }

  /** After the writes, a slot holds its own fragment if its task ran, and
      what it held before otherwise. */
  lemma {:induction false} ApplyWritesAt(slots: seq<Option<string>>, order: seq<nat>, fs: seq<string>, i: nat)
    requires forall k :: 0 <= k < |order| ==> order[k] < |slots| && order[k] < |fs|
    requires i < |slots|
    ensures ApplyWrites(slots, order, fs)[i] == if i in order then Some(fs[i]) else slots[i]
  {
    if order != [] {
      var init := order[..|order| - 1];
      ApplyWritesAt(slots, init, fs, i);
      assert order == init + [order[|order| - 1]];
    }
  }

  /** Order independence: whatever order the tasks complete in, once each
      has written its slot the slots hold the fragments in index order, and
      the join is the fragments concatenated in index order. */
  lemma WritesInAnyOrder(slots: seq<Option<string>>, order: seq<nat>, fs: seq<string>)
    requires |slots| == |fs|
    requires IsSchedule(order, |fs|)
    ensures ApplyWrites(slots, order, fs) == Filled(fs)
    ensures Join(ApplyWrites(slots, order, fs)) == Some(Concat(fs))
  {
    ScheduleCovers(order, |fs|);
    forall i | 0 <= i < |fs| ensures ApplyWrites(slots, order, fs)[i] == Filled(fs)[i] {
      ApplyWritesAt(slots, order, fs, i);
    }
    JoinFilled(fs);
  }

  /** If some task has not written its slot, the join of the list the run
      started from is undefined. */
  lemma IncompleteWritesJoinUndefined(n: nat, order: seq<nat>, fs: seq<string>, i: nat)
    requires forall k :: 0 <= k < |order| ==> order[k] < n && order[k] < |fs|
    requires i < n && i !in order
    ensures Join(ApplyWrites(Empty(n), order, fs)) == None
  {
    ApplyWritesAt(Empty(n), order, fs, i);
  }
}
