/** Order-preserving filtering (JavaScript's `Array.prototype.filter`) and the
    dictionary that a loop of `d[k] = v` assignments builds (Python's `dict`). */
module Seqs {
  import opened Wrappers

  /** Concatenation is associative; stated once so that loops appending to a
      string need not rediscover it. */
  lemma AppendAssociative<T>(a: seq<T>, b: seq<T>, c: seq<T>)
    ensures (a + b) + c == a + (b + c)
  {
  }

  /** The elements of `s` that `keep` accepts, in their original order. */
  function Filter<T(!new)>(s: seq<T>, keep: T -> bool): (r: seq<T>)
    ensures |r| <= |s|
    ensures forall x :: x in r <==> x in s && keep(x)
  {
    if s == [] then []
    else (if keep(s[0]) then [s[0]] else []) + Filter(s[1..], keep)
  }

  /** `a` can be obtained from `b` by deleting elements, without reordering. */
  predicate IsSubsequence<T(==)>(a: seq<T>, b: seq<T>)
    decreases |b|
  {
    if a == [] then true
    else if b == [] then false
    else (a[0] == b[0] && IsSubsequence(a[1..], b[1..])) || IsSubsequence(a, b[1..])
  }

  lemma {:induction false} FilterIsSubsequence<T(!new)>(s: seq<T>, keep: T -> bool)
    ensures IsSubsequence(Filter(s, keep), s)
  {
    if s != [] {
      FilterIsSubsequence(s[1..], keep);
      var rest := Filter(s[1..], keep);
      if keep(s[0]) {
        assert Filter(s, keep) == [s[0]] + rest;
        assert ([s[0]] + rest)[1..] == rest;
      } else {
        assert Filter(s, keep) == rest;
        SubsequenceOfTail(rest, s);
      }
    }
  }

  lemma SubsequenceOfTail<T>(a: seq<T>, b: seq<T>)
    requires b != [] && IsSubsequence(a, b[1..])
    ensures IsSubsequence(a, b)
  {
  }

  /** Filtering keeps everything when every element is accepted. */
  lemma {:induction false} FilterKeepsAll<T(!new)>(s: seq<T>, keep: T -> bool)
    requires forall k :: 0 <= k < |s| ==> keep(s[k])
    ensures Filter(s, keep) == s
  {
    if s != [] {
      FilterKeepsAll(s[1..], keep);
    }
  }

  /** Filtering drops everything when no element is accepted. */
  lemma {:induction false} FilterDropsAll<T(!new)>(s: seq<T>, keep: T -> bool)
    requires forall k :: 0 <= k < |s| ==> !keep(s[k])
    ensures Filter(s, keep) == []
  {
    if s != [] {
      FilterDropsAll(s[1..], keep);
    }
  }

  /** Filtering commutes with concatenation. */
  lemma {:induction false} FilterAppend<T(!new)>(a: seq<T>, b: seq<T>, keep: T -> bool)
    ensures Filter(a + b, keep) == Filter(a, keep) + Filter(b, keep)
  {
    if a == [] {
      assert a + b == b;
    } else {
      assert (a + b)[0] == a[0];
      assert (a + b)[1..] == a[1..] + b;
      FilterAppend(a[1..], b, keep);
    }
  }

  /** The dictionary built by a loop that, at step `k`, assigns `d[key] = value`
      when `steps[k]` is `Some((key, value))` and skips the item otherwise. */
  function Assign<K, V>(steps: seq<Option<(K, V)>>): map<K, V>
  {
    if steps == [] then map[]
    else
      var before := Assign(steps[..|steps| - 1]);
      match steps[|steps| - 1]
      case None => before
      case Some(entry) => before[entry.0 := entry.1]
  }

  /** One more step of the loop. */
  lemma AssignSnoc<K, V>(steps: seq<Option<(K, V)>>, step: Option<(K, V)>)
    ensures step.None? ==> Assign(steps + [step]) == Assign(steps)
    ensures step.Some? ==> Assign(steps + [step]) == Assign(steps)[step.value.0 := step.value.1]
  {
    assert (steps + [step])[..|steps|] == steps;
  }

  /** A key is in the dictionary exactly when some step assigned it. */
  lemma {:induction false} AssignKeys<K, V>(steps: seq<Option<(K, V)>>, key: K)
    ensures key in Assign(steps) <==> exists k :: 0 <= k < |steps| && steps[k].Some? && steps[k].value.0 == key
  {
    if steps != [] {
      var init := steps[..|steps| - 1];
      AssignKeys(init, key);
      if key in Assign(init) {
        var k :| 0 <= k < |init| && init[k].Some? && init[k].value.0 == key;
        assert steps[k] == init[k];
      }
      if exists k :: 0 <= k < |steps| && steps[k].Some? && steps[k].value.0 == key {
        var k :| 0 <= k < |steps| && steps[k].Some? && steps[k].value.0 == key;
        if k < |init| {
          assert init[k] == steps[k];
        }
      }
    }
  }

  /** The value stored under a key is the one from the LAST step that assigned it. */
  lemma {:induction false} AssignLastWins<K, V>(steps: seq<Option<(K, V)>>, k: nat)
    requires k < |steps| && steps[k].Some?
    requires forall j :: k < j < |steps| && steps[j].Some? ==> steps[j].value.0 != steps[k].value.0
    ensures steps[k].value.0 in Assign(steps) && Assign(steps)[steps[k].value.0] == steps[k].value.1
  {
    if k < |steps| - 1 {
      var init := steps[..|steps| - 1];
      assert init[k] == steps[k];
      AssignLastWins(init, k);
    }
  }

  /** The last step that assigns `key`, at or after a known one. */
  lemma LastAssignment<K, V>(steps: seq<Option<(K, V)>>, key: K, k: nat) returns (last: nat)
    requires k < |steps| && steps[k].Some? && steps[k].value.0 == key
    ensures k <= last < |steps| && steps[last].Some? && steps[last].value.0 == key
    ensures forall j :: last < j < |steps| && steps[j].Some? ==> steps[j].value.0 != key
    decreases |steps| - k
  {
    if exists j :: k < j < |steps| && steps[j].Some? && steps[j].value.0 == key {
      var j :| k < j < |steps| && steps[j].Some? && steps[j].value.0 == key;
      last := LastAssignment(steps, key, j);
    } else {
      last := k;
    }
  }
}
