/**
 The generic change-tracking helpers of the state cache: compare a remembered
 value with a wanted one, overwrite it, and report whether a driver call is
 needed.
 */
module StateUpdate {
  import opened Options
  import opened GLStateTypes

  /** Whether the remembered value changed, and the value now remembered. */
  datatype Update<T> = Update(changed: bool, value: T)

  /** Overwrites a remembered value and reports whether it differed. A tuple
      of references compared and assigned as a whole (UpdateTie) is the same
      operation on a record value. */
  function UpdateValue<T(==)>(current: T, next: T): (u: Update<T>)
    ensures u.value == next
    ensures u.changed <==> current != next
  {
    Update(current != next, next)
  }

  /** The plain glEnable/glDisable call for a capability. */
  function EnableCall(cap: Capability, enable: bool): (c: Call)
    ensures c.Enable? || c.Disable?
    ensures c.cap == cap && (c.Enable? <==> enable)
  {
    if enable then Enable(cap) else Disable(cap)
  }

  /** The indexed glEnablei/glDisablei call for a capability. */
  function EnableIndexedCall(cap: Capability, index: nat, enable: bool): (c: Call)
    ensures c.Enablei? || c.Disablei?
    ensures c.cap == cap && c.index == index && (c.Enablei? <==> enable)
  {
    if enable then Enablei(cap, index) else Disablei(cap, index)
  }

  /** A tracked capability switch: issues the switch only when the wanted value
      differs from the remembered one. */
  function EnableTracked(cap: Capability, current: bool, next: bool): (r: Out<bool>)
    ensures r.cur == next
    ensures forall c :: c in r.calls <==> current != next && c == EnableCall(cap, next)
    ensures |r.calls| <= 1
  {
    var u := UpdateValue(current, next);
    Out(u.value, if u.changed then [EnableCall(cap, next)] else [])
  }

  /** The indexed form of EnableTracked. */
  function EnableTrackedIndexed(cap: Capability, index: nat, current: bool, next: bool): (r: Out<bool>)
    ensures r.cur == next
    ensures forall c :: c in r.calls <==> current != next && c == EnableIndexedCall(cap, index, next)
    ensures |r.calls| <= 1
  {
    var u := UpdateValue(current, next);
    Out(u.value, if u.changed then [EnableIndexedCall(cap, index, next)] else [])
  }

  /** a and b agree on every index in [lo, hi). */
  predicate SameOn<T(==)>(a: seq<T>, b: seq<T>, lo: nat, hi: nat)
    requires hi <= |a| && hi <= |b|
  {
    forall k :: lo <= k < hi ==> a[k] == b[k]
  }

  /** f is the lowest index at which a and b differ. */
  predicate IsFirstDiff<T(==)>(a: seq<T>, b: seq<T>, f: nat)
    requires |a| == |b|
  {
    f < |a| && a[f] != b[f] && SameOn(a, b, 0, f)
  }

  /** l is the highest index below hi at which a and b differ. */
  predicate IsLastDiffBelow<T(==)>(a: seq<T>, b: seq<T>, l: nat, hi: nat)
    requires |a| == |b| && hi <= |a|
  {
    l < hi && a[l] != b[l] && SameOn(a, b, l + 1, hi)
  }

  /** The scan of UpdateArray from index i on: first is the lowest differing
      index seen so far (if any), last the highest. Returns the range as
      (first index, number of slots). */
  function ScanDiff<T(==)>(current: seq<T>, next: seq<T>, i: nat, first: Option<nat>, last: nat)
    : (r: Option<(nat, nat)>)
    requires |current| == |next| && i <= |current|
    requires first.None? ==> SameOn(current, next, 0, i)
    requires first.Some? ==> IsFirstDiff(current, next, first.value) && IsLastDiffBelow(current, next, last, i)
    ensures r.None? <==> SameOn(current, next, 0, |current|)
    ensures r.Some? ==>
              && r.value.1 >= 1
              && IsFirstDiff(current, next, r.value.0)
              && IsLastDiffBelow(current, next, r.value.0 + r.value.1 - 1, |current|)
    decreases |current| - i
  {
    if i == |current| then
      if first.None? then None else Some((first.value, last - first.value + 1))
    else if current[i] == next[i] then
      ScanDiff(current, next, i + 1, first, last)
    else
      ScanDiff(current, next, i + 1, if first.None? then Some(i) else first, i)
  }

  /** The range UpdateArray reports, and the array it leaves behind. */
  datatype ArrayUpdate<T> = ArrayUpdate(range: Option<(nat, nat)>, values: seq<T>)

  /** Overwrites a remembered array and reports the smallest contiguous range
      (first, count) that covers every differing slot, or None when nothing
      differs. */
  function UpdateArray<T(==)>(current: seq<T>, next: seq<T>): (r: ArrayUpdate<T>)
    requires |current| == |next|
    ensures r.values == next
    ensures r.range.None? <==> current == next
    ensures r.range.Some? ==>
              && r.range.value.1 >= 1
              && r.range.value.0 + r.range.value.1 <= |current|
              && IsFirstDiff(current, next, r.range.value.0)
              && IsLastDiffBelow(current, next, r.range.value.0 + r.range.value.1 - 1, |current|)
  {
    ArrayUpdate(ScanDiff(current, next, 0, None, 0), next)
  }

  /** The first differing index is unique. */
  lemma FirstDiffUnique<T>(a: seq<T>, b: seq<T>, f: nat, g: nat)
    requires |a| == |b|
    requires IsFirstDiff(a, b, f) && IsFirstDiff(a, b, g)
    ensures f == g
  {
  }

  /** The last differing index is unique. */
  lemma LastDiffUnique<T>(a: seq<T>, b: seq<T>, l: nat, m: nat, hi: nat)
    requires |a| == |b| && hi <= |a|
    requires IsLastDiffBelow(a, b, l, hi) && IsLastDiffBelow(a, b, m, hi)
    ensures l == m
  {
  }

  /** Runs a per-slot apply step over every slot in index order; slot k of the
      input is handled as unit base + k. */
  function ForEachSlot<T>(base: nat, current: seq<T>, next: seq<T>, step: (nat, T, T) -> Out<T>)
    : (r: Out<seq<T>>)
    requires |current| == |next|
    ensures |r.cur| == |current|
    ensures forall k :: 0 <= k < |current| ==> r.cur[k] == step(base + k, current[k], next[k]).cur
    decreases |current|
  {
    if |current| == 0 then Out([], [])
    else
      var head := step(base, current[0], next[0]);
      var rest := ForEachSlot(base + 1, current[1..], next[1..], step);
      Out([head.cur] + rest.cur, head.calls + rest.calls)
  }

  /** The slot whose step issued a call of the slot loop. */
  lemma {:induction false} SlotOfCall<T>(base: nat, current: seq<T>, next: seq<T>,
                                         step: (nat, T, T) -> Out<T>, c: Call) returns (k: nat)
    requires |current| == |next|
    requires c in ForEachSlot(base, current, next, step).calls
    ensures k < |current| && c in step(base + k, current[k], next[k]).calls
    decreases |current|
  {
    var head := step(base, current[0], next[0]);
    var rest := ForEachSlot(base + 1, current[1..], next[1..], step);
    assert ForEachSlot(base, current, next, step).calls == head.calls + rest.calls;
    if c in head.calls {
      k := 0;
    } else {
      var j := SlotOfCall(base + 1, current[1..], next[1..], step, c);
      k := j + 1;
      SlotShift(base, current, next, step, k);
    }
  }

  /** A call some slot's step issues is issued by the slot loop. */
  lemma {:induction false} CallOfSlot<T>(base: nat, current: seq<T>, next: seq<T>,
                                         step: (nat, T, T) -> Out<T>, c: Call, k: nat)
    requires |current| == |next| && k < |current|
    requires c in step(base + k, current[k], next[k]).calls
    ensures c in ForEachSlot(base, current, next, step).calls
    decreases |current|
  {
    var head := step(base, current[0], next[0]);
    var rest := ForEachSlot(base + 1, current[1..], next[1..], step);
    assert ForEachSlot(base, current, next, step).calls == head.calls + rest.calls;
    if k > 0 {
      SlotShift(base, current, next, step, k);
      CallOfSlot(base + 1, current[1..], next[1..], step, c, k - 1);
    }
  }

  /** A call is issued by the slot loop iff some slot's step issues it. */
  lemma ForEachSlotCalls<T>(base: nat, current: seq<T>, next: seq<T>,
                            step: (nat, T, T) -> Out<T>, c: Call)
    requires |current| == |next|
    ensures c in ForEachSlot(base, current, next, step).calls <==>
            exists k :: 0 <= k < |current| && c in step(base + k, current[k], next[k]).calls
  {
    if c in ForEachSlot(base, current, next, step).calls {
      var k := SlotOfCall(base, current, next, step, c);
    }
    if exists k :: 0 <= k < |current| && c in step(base + k, current[k], next[k]).calls {
      var k :| 0 <= k < |current| && c in step(base + k, current[k], next[k]).calls;
      CallOfSlot(base, current, next, step, c, k);
    }
  }

  /** Slot k of a sequence is slot k - 1 of its tail, handled one unit later. */
  lemma SlotShift<T>(base: nat, current: seq<T>, next: seq<T>, step: (nat, T, T) -> Out<T>, k: nat)
    requires |current| == |next| && 0 < k < |current|
    ensures step(base + k, current[k], next[k]) == step(base + 1 + (k - 1), current[1..][k - 1], next[1..][k - 1])
  {
  }

  /** The calls of the slot loop, described by a per-slot call predicate. */
  lemma ForEachSlotCallsBy<T>(current: seq<T>, next: seq<T>, step: (nat, T, T) -> Out<T>,
                              issues: (nat, T, T, Call) -> bool, c: Call)
    requires |current| == |next|
    requires forall i, x, y, d :: d in step(i, x, y).calls <==> issues(i, x, y, d)
    ensures c in ForEachSlot(0, current, next, step).calls <==>
            exists i :: 0 <= i < |current| && issues(i, current[i], next[i], c)
  {
    var issued := c in ForEachSlot(0, current, next, step).calls;
    var described := exists i :: 0 <= i < |current| && issues(i, current[i], next[i], c);
    assert issued ==> described by {
      if issued {
        var k := SlotOfCall(0, current, next, step, c);
        assert c in step(k, current[k], next[k]).calls;
        assert issues(k, current[k], next[k], c);
      }
    }
    assert described ==> issued by {
      if described {
        var k :| 0 <= k < |current| && issues(k, current[k], next[k], c);
        assert c in step(k, current[k], next[k]).calls;
        CallOfSlot(0, current, next, step, c, k);
      }
    }
  }

  /** The slot loop issues nothing iff no slot's step issues anything. */
  lemma {:induction false} ForEachSlotQuiet<T>(base: nat, current: seq<T>, next: seq<T>,
                                               step: (nat, T, T) -> Out<T>)
    requires |current| == |next|
    ensures ForEachSlot(base, current, next, step).calls == [] <==>
            forall k :: 0 <= k < |current| ==> step(base + k, current[k], next[k]).calls == []
    decreases |current|
  {
    if |current| > 0 {
      ForEachSlotQuiet(base + 1, current[1..], next[1..], step);
      forall k | 1 <= k < |current|
        ensures step(base + k, current[k], next[k]) == step(base + 1 + (k - 1), current[1..][k - 1], next[1..][k - 1])
      {
        SlotShift(base, current, next, step, k);
      }
    }
  }
}
