/**
  The kinds of event a button device reports, and the sequence operations
  the rest of the model uses to talk about emitted event streams.
 */
module Events {

  /** The closed set of event kinds (`ButtonEventType`). */
  datatype EventType =
    | ButtonPress
    | ButtonRelease
    | ButtonClick
    | ButtonHold
    | ButtonDoubleClick
    | LidOpen
    | LidClose

  /** The lid events. */
  const LidKinds: set<EventType> := {LidOpen, LidClose}

  /** The plain button edge events. */
  const EdgeKinds: set<EventType> := {ButtonPress, ButtonRelease}

  /** Every button event, plain edges and composite ones. */
  const ButtonKinds: set<EventType> := {ButtonPress, ButtonRelease, ButtonClick, ButtonHold, ButtonDoubleClick}

  /**
    The event for one step of a boolean signal that was `prev` and is now
    `cur`: `up` when it became true, `down` when it became false, else none.
   */
  function Edge(prev: bool, cur: bool, up: EventType, down: EventType): seq<EventType>
  {
    if cur && !prev then [up]
    else if !cur && prev then [down]
    else []
  }

  /** Where each kind sits in the order one classifier step emits events. */
  function Rank(e: EventType): nat
  {
    match e
    case LidOpen => 0
    case LidClose => 1
    case ButtonHold => 2
    case ButtonClick => 3
    case ButtonDoubleClick => 4
    case ButtonPress => 5
    case ButtonRelease => 6
  }

  /** The events appear in strictly increasing rank, hence each at most once. */
  predicate InEmissionOrder(es: seq<EventType>)
  {
    forall i, j :: 0 <= i < j < |es| ==> Rank(es[i]) < Rank(es[j])
  }

  /** How many times `e` occurs in `es`. */
  function Count(es: seq<EventType>, e: EventType): nat
  {
    multiset(es)[e]
  }

  /** Counting distributes over concatenation. */
  lemma CountAppend(a: seq<EventType>, b: seq<EventType>, e: EventType)
    ensures Count(a + b, e) == Count(a, e) + Count(b, e)
  {
    assert multiset(a + b) == multiset(a) + multiset(b);
  }

  /** The subsequence of `es` whose kinds lie in `kinds`, in their original order. */
  function Filter(es: seq<EventType>, kinds: set<EventType>): (r: seq<EventType>)
    ensures |r| <= |es|
  {
    if |es| == 0 then []
    else
      assert es == [es[0]] + es[1..];
      (if es[0] in kinds then [es[0]] else []) + Filter(es[1..], kinds)
  }

  /** The filtered stream holds exactly the events of the kept kinds that occur in the input. */
  lemma {:induction false} FilterMembers(es: seq<EventType>, kinds: set<EventType>, e: EventType)
    ensures e in Filter(es, kinds) <==> e in es && e in kinds
  {
    if |es| > 0 {
      assert es == [es[0]] + es[1..];
      FilterMembers(es[1..], kinds, e);
    }
  }

  /** Concatenation of event sequences is associative. */
  lemma Associative(a: seq<EventType>, b: seq<EventType>, c: seq<EventType>)
    ensures a + (b + c) == (a + b) + c
  {
  }

  /** Filtering distributes over concatenation. */
  lemma {:induction false} FilterAppend(a: seq<EventType>, b: seq<EventType>, kinds: set<EventType>)
    ensures Filter(a + b, kinds) == Filter(a, kinds) + Filter(b, kinds)
  {
    if |a| == 0 {
      assert a + b == b;
    } else {
      var head := if a[0] in kinds then [a[0]] else [];
      assert Filter(a + b, kinds) == head + Filter(a[1..] + b, kinds) by {
        assert (a + b)[0] == a[0];
        assert (a + b)[1..] == a[1..] + b;
      }
      FilterAppend(a[1..], b, kinds);
      Associative(head, Filter(a[1..], kinds), Filter(b, kinds));
    }
  }

  /** Filtering the events of one classifier step, which are four pieces in a row, filters each piece. */
  lemma FilterAppend4(a: seq<EventType>, b: seq<EventType>, c: seq<EventType>, d: seq<EventType>, kinds: set<EventType>)
    ensures Filter(a + b + c + d, kinds) == Filter(a, kinds) + Filter(b, kinds) + Filter(c, kinds) + Filter(d, kinds)
  {
    FilterAppend(a, b, kinds);
    FilterAppend(a + b, c, kinds);
    FilterAppend(a + b + c, d, kinds);
  }

  /** Filtering four pieces in a row, the first of which has none of the kept kinds and the rest only kept kinds. */
  lemma FilterDropsFirst(a: seq<EventType>, b: seq<EventType>, c: seq<EventType>, d: seq<EventType>, kinds: set<EventType>)
    requires forall i :: 0 <= i < |a| ==> a[i] !in kinds
    requires forall i :: 0 <= i < |b| ==> b[i] in kinds
    requires forall i :: 0 <= i < |c| ==> c[i] in kinds
    requires forall i :: 0 <= i < |d| ==> d[i] in kinds
    ensures Filter(a + b + c + d, kinds) == b + c + d
  {
    assert Filter(a + b + c + d, kinds) == Filter(a, kinds) + Filter(b, kinds) + Filter(c, kinds) + Filter(d, kinds) by {
      FilterAppend4(a, b, c, d, kinds);
    }
    assert Filter(a, kinds) == [] by { FilterNone(a, kinds); }
    assert Filter(b, kinds) == b by { FilterAll(b, kinds); }
    assert Filter(c, kinds) == c by { FilterAll(c, kinds); }
    assert Filter(d, kinds) == d by { FilterAll(d, kinds); }
    assert [] + b + c + d == b + c + d;
  }

  /** Filtering keeps every occurrence of the kept kinds and drops every other one. */
  lemma {:induction false} FilterCount(es: seq<EventType>, kinds: set<EventType>, e: EventType)
    ensures Count(Filter(es, kinds), e) == if e in kinds then Count(es, e) else 0
  {
    if |es| > 0 {
      assert es == [es[0]] + es[1..];
      FilterCount(es[1..], kinds, e);
    }
  }

  /** Filtering a sequence made only of kept kinds leaves it unchanged. */
  lemma {:induction false} FilterAll(es: seq<EventType>, kinds: set<EventType>)
    requires forall i :: 0 <= i < |es| ==> es[i] in kinds
    ensures Filter(es, kinds) == es
  {
    if |es| > 0 {
      FilterAll(es[1..], kinds);
    }
  }

  /** Filtering a sequence with no kept kind leaves nothing. */
  lemma {:induction false} FilterNone(es: seq<EventType>, kinds: set<EventType>)
    requires forall i :: 0 <= i < |es| ==> es[i] !in kinds
    ensures Filter(es, kinds) == []
  {
    if |es| > 0 {
      FilterNone(es[1..], kinds);
    }
  }

}
