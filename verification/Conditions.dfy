/** Condition lists: the upsert that every controller reports through, and what a history of upserts leaves. */
module Conditions {
  import opened Wrappers

  datatype ConditionType = Ready | Degraded | Progressing | Reconciled | Other(name: string)

  datatype ConditionStatus = ConditionTrue | ConditionFalse | ConditionUnknown

  /** Reasons and messages are only ever compared and copied, so they are parameters. */
  datatype Condition<+R, +M> = Condition(
    ctype: ConditionType, status: ConditionStatus, reason: R, message: M, lastTransition: int)

  /** One call of `SetCondition`, with the clock reading it took. */
  datatype Call<+R, +M> = Call(ctype: ConditionType, status: ConditionStatus, reason: R, message: M, now: int)

  /** The first entry of type `t`, or the length when there is none. */
  function Find<R(==), M>(cs: seq<Condition<R, M>>, t: ConditionType): (i: nat)
    ensures i <= |cs|
    ensures forall k | 0 <= k < i :: cs[k].ctype != t
    ensures i < |cs| ==> cs[i].ctype == t
  {
    if |cs| == 0 || cs[0].ctype == t then 0 else Find(cs[1..], t) + 1
  }

  function Lookup<R(==), M>(cs: seq<Condition<R, M>>, t: ConditionType): Option<Condition<R, M>> {
    var i := Find(cs, t);
    if i < |cs| then Some(cs[i]) else None
  }

  ghost predicate DistinctTypes<R, M>(cs: seq<Condition<R, M>>) {
    forall i, j | 0 <= i < j < |cs| :: cs[i].ctype != cs[j].ctype
  }

  function FromCall<R(==), M>(c: Call<R, M>): Condition<R, M> {
    Condition(c.ctype, c.status, c.reason, c.message, c.now)
  }

  predicate Differs<R(==), M>(old_: Condition<R, M>, c: Call<R, M>) {
    old_.status != c.status || old_.reason != c.reason
  }

  /** What one call does to the list. The message and the time move only with the status or the reason. */
  function Upsert<R(==), M>(cs: seq<Condition<R, M>>, c: Call<R, M>): seq<Condition<R, M>> {
    var i := Find(cs, c.ctype);
    if i == |cs| then cs + [FromCall(c)]
    else if Differs(cs[i], c) then cs[i := FromCall(c)]
    else cs
  }

  /** A condition list held by a status object and changed through a pointer. */
  class ConditionList<R(==), M> {
    var items: seq<Condition<R, M>>

    constructor (initial: seq<Condition<R, M>>)
      ensures items == initial
    {
      items := initial;
    }

    method SetCondition(ctype: ConditionType, status: ConditionStatus, reason: R, message: M, now: int)
      modifies this
      ensures items == Upsert(old(items), Call(ctype, status, reason, message, now))
    {
      for i := 0 to |items|
        invariant items == old(items)
        invariant forall k | 0 <= k < i :: items[k].ctype != ctype
      {
        var c := items[i];
        if c.ctype == ctype {
          if c.status != status || c.reason != reason {
            items := items[i := items[i].(status := status)];
            items := items[i := items[i].(reason := reason)];
            items := items[i := items[i].(message := message)];
            items := items[i := items[i].(lastTransition := now)];
          }
          return;
        }
      }
      items := items + [Condition(ctype, status, reason, message, now)];
    }
  }

  predicate Is<R(==), M>(cs: seq<Condition<R, M>>, t: ConditionType, status: ConditionStatus) {
    Lookup(cs, t).Some? && Lookup(cs, t).value.status == status
  }

  predicate IsReady<R(==), M>(cs: seq<Condition<R, M>>) {
    Is(cs, Ready, ConditionTrue)
  }

  lemma FindFirst<R, M>(cs: seq<Condition<R, M>>, t: ConditionType, i: nat)
    requires i <= |cs|
    requires forall k | 0 <= k < i :: cs[k].ctype != t
    requires i < |cs| ==> cs[i].ctype == t
    ensures Find(cs, t) == i
  {
  }

  /** What is stored for a type after a call for that type. */
  function Stored<R(==), M>(before: Option<Condition<R, M>>, c: Call<R, M>): Option<Condition<R, M>> {
    if before.None? || Differs(before.value, c) then Some(FromCall(c)) else before
  }

  /** A call writes its own type, by the rule of `Stored`, and leaves every other type alone. */
  lemma UpsertLookup<R, M>(cs: seq<Condition<R, M>>, c: Call<R, M>, t: ConditionType)
    ensures Lookup(Upsert(cs, c), t) == if t == c.ctype then Stored(Lookup(cs, t), c) else Lookup(cs, t)
  {
    var i, j := Find(cs, c.ctype), Find(cs, t);
    var r := Upsert(cs, c);
    if t == c.ctype || j < |cs| {
      FindFirst(r, t, j);
    } else {
      FindFirst(r, t, |r|);
    }
  }

  /** What that rule is: the whole condition is replaced when its status or its reason is new, and not touched otherwise. */
  lemma UpsertStores<R, M>(cs: seq<Condition<R, M>>, c: Call<R, M>)
    ensures var before, after := Lookup(cs, c.ctype), Lookup(Upsert(cs, c), c.ctype);
            && (before.Some? && before.value.status == c.status && before.value.reason == c.reason ==> Upsert(cs, c) == cs)
            && (before.None? || before.value.status != c.status || before.value.reason != c.reason ==>
                  after == Some(Condition(c.ctype, c.status, c.reason, c.message, c.now)))
  {
    UpsertLookup(cs, c, c.ctype);
  }

  /** Entries stay where they are, and a type that was not there comes last. */
  lemma UpsertKeepsPlaces<R, M>(cs: seq<Condition<R, M>>, c: Call<R, M>)
    ensures |Upsert(cs, c)| == |cs| + if exists k :: 0 <= k < |cs| && cs[k].ctype == c.ctype then 0 else 1
    ensures forall k | 0 <= k < |cs| :: Upsert(cs, c)[k].ctype == cs[k].ctype
    ensures forall k | 0 <= k < |cs| && cs[k].ctype != c.ctype :: Upsert(cs, c)[k] == cs[k]
    ensures |Upsert(cs, c)| > |cs| ==> Upsert(cs, c)[|cs|].ctype == c.ctype
  {
    var i := Find(cs, c.ctype);
    assert i < |cs| ==> cs[i].ctype == c.ctype;
  }

  lemma UpsertKeepsTypesDistinct<R, M>(cs: seq<Condition<R, M>>, c: Call<R, M>)
    requires DistinctTypes(cs)
    ensures DistinctTypes(Upsert(cs, c))
  {
  }

  // ---- histories ----

  function Replay<R(==), M>(cs: seq<Condition<R, M>>, calls: seq<Call<R, M>>): seq<Condition<R, M>> {
    if |calls| == 0 then cs else Upsert(Replay(cs, calls[..|calls| - 1]), calls[|calls| - 1])
  }

  /** The calls made for type `t`, in order. */
  function Mine<R(==), M>(calls: seq<Call<R, M>>, t: ConditionType): (r: seq<Call<R, M>>)
    ensures forall c | c in r :: c.ctype == t
  {
    if |calls| == 0 then []
    else
      var last := calls[|calls| - 1];
      Mine(calls[..|calls| - 1], t) + if last.ctype == t then [last] else []
  }

  predicate Agree<R(==), M>(a: Call<R, M>, b: Call<R, M>) {
    a.status == b.status && a.reason == b.reason
  }

  /** Where the last unbroken block of calls with one status and reason begins. */
  function BlockStart<R(==), M>(mine: seq<Call<R, M>>): (k: nat)
    requires |mine| > 0
    ensures k < |mine|
    ensures forall j | k <= j < |mine| :: Agree(mine[j], mine[|mine| - 1])
    ensures k > 0 ==> !Agree(mine[k - 1], mine[|mine| - 1])
  {
    var n := |mine| - 1;
    if n == 0 || !Agree(mine[n - 1], mine[n]) then n
    else BlockStart(mine[..n])
  }

  /**
   * The condition a history of calls should leave for one type, without replaying it: the call that
   * opened the last block of equal status and reason, unless that block only repeats what was there.
   */
  function Reported<R(==), M>(initial: Option<Condition<R, M>>, mine: seq<Call<R, M>>): Option<Condition<R, M>> {
    if |mine| == 0 then initial
    else
      var k := BlockStart(mine);
      if k == 0 && initial.Some? && !Differs(initial.value, mine[0]) then initial
      else Some(FromCall(mine[k]))
  }

  lemma ReportedStep<R, M>(initial: Option<Condition<R, M>>, mine: seq<Call<R, M>>)
    requires |mine| > 0
    ensures Reported(initial, mine) == Stored(Reported(initial, mine[..|mine| - 1]), mine[|mine| - 1])
  {
  }

  /**
   * Replaying any calls over any list leaves, for every type, the opener of that type's last block:
   * status and reason are the last call's, message and time are the opener's and may be stale.
   */
  lemma {:induction false} HistoryOfAType<R, M>(cs: seq<Condition<R, M>>, calls: seq<Call<R, M>>, t: ConditionType)
    ensures Lookup(Replay(cs, calls), t) == Reported(Lookup(cs, t), Mine(calls, t))
  {
    if |calls| > 0 {
      var n := |calls| - 1;
      HistoryOfAType(cs, calls[..n], t);
      UpsertLookup(Replay(cs, calls[..n]), calls[n], t);
      var mine, earlier := Mine(calls, t), Mine(calls[..n], t);
      if calls[n].ctype == t {
        assert mine == earlier + [calls[n]];
        assert mine[..|mine| - 1] == earlier;
        ReportedStep(Lookup(cs, t), mine);
      } else {
        assert mine == earlier;
      }
    }
  }

  /** The last call for a type always decides the status and reason that are read back. */
  lemma LastCallDecides<R, M>(cs: seq<Condition<R, M>>, calls: seq<Call<R, M>>, t: ConditionType)
    requires |Mine(calls, t)| > 0
    ensures Lookup(Replay(cs, calls), t).Some?
    ensures var stored, last := Lookup(Replay(cs, calls), t).value, Mine(calls, t)[|Mine(calls, t)| - 1];
            stored.status == last.status && stored.reason == last.reason
  {
    HistoryOfAType(cs, calls, t);
    var mine := Mine(calls, t);
    var k := BlockStart(mine);
    assert Agree(mine[k], mine[|mine| - 1]);
  }

  lemma {:induction false} ReplayKeepsTypesDistinct<R, M>(cs: seq<Condition<R, M>>, calls: seq<Call<R, M>>)
    requires DistinctTypes(cs)
    ensures DistinctTypes(Replay(cs, calls))
  {
    if |calls| > 0 {
      ReplayKeepsTypesDistinct(cs, calls[..|calls| - 1]);
      UpsertKeepsTypesDistinct(Replay(cs, calls[..|calls| - 1]), calls[|calls| - 1]);
    }
  }
}
