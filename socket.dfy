/** The signaling bus's dispatch table: a process-wide map from message
    type to the ordered list of handlers registered for it. */
module Socket {

  /** The identity of a handler function (JavaScript compares them with `!==`). */
  type HandlerId = nat

  type Handlers = map<string, seq<HandlerId>>

  /** The table never keeps a type whose list has become empty. */
  ghost predicate NoEmptyLists(m: Handlers) {
    forall t :: t in m ==> m[t] != []
  }

  /** `messageHandlers.get(type) || []`. */
  function ListFor(m: Handlers, t: string): seq<HandlerId> {
    if t in m then m[t] else []
  }

  /** `handlers.filter(h => h !== handler)`. */
  function Without(hs: seq<HandlerId>, h: HandlerId): seq<HandlerId> {
    if hs == [] then []
    else (if hs[0] == h then [] else [hs[0]]) + Without(hs[1..], h)
  }

  /** `a` is `b` with some elements dropped and the rest in their order. */
  ghost predicate IsSubsequence(a: seq<HandlerId>, b: seq<HandlerId>) {
    if a == [] then true
    else if b == [] then false
    else if a[0] == b[0] then IsSubsequence(a[1..], b[1..])
    else IsSubsequence(a, b[1..])
  }

  /** The table after `registerMessageHandler(t, h)`. */
  function Registered(m: Handlers, t: string, h: HandlerId): (r: Handlers)
    ensures ListFor(r, t) == ListFor(m, t) + [h]
    ensures forall u :: u != t ==> ListFor(r, u) == ListFor(m, u)
    ensures NoEmptyLists(m) ==> NoEmptyLists(r)
  {
    m[t := ListFor(m, t) + [h]]
  }

  /** The table after `removeMessageHandler(t, h)`. */
  function Removed(m: Handlers, t: string, h: HandlerId): (r: Handlers)
    ensures ListFor(r, t) == Without(ListFor(m, t), h)
    ensures forall u :: u != t ==> ListFor(r, u) == ListFor(m, u)
    ensures t in r <==> Without(ListFor(m, t), h) != []
    ensures NoEmptyLists(m) ==> NoEmptyLists(r)
  {
    var rest := Without(ListFor(m, t), h);
    if rest == [] then m - {t} else m[t := rest]
  }

  lemma {:induction false} WithoutDropsEveryOccurrence(hs: seq<HandlerId>, h: HandlerId)
    ensures h !in Without(hs, h)
  {
    if hs != [] {
      WithoutDropsEveryOccurrence(hs[1..], h);
    }
  }

  lemma {:induction false} WithoutKeepsOthers(hs: seq<HandlerId>, h: HandlerId, x: HandlerId)
    requires x != h
    ensures multiset(Without(hs, h))[x] == multiset(hs)[x]
  {
    if hs != [] {
      WithoutKeepsOthers(hs[1..], h, x);
      assert hs == [hs[0]] + hs[1..];
    }
  }

  lemma {:induction false} WithoutKeepsOrder(hs: seq<HandlerId>, h: HandlerId)
    ensures IsSubsequence(Without(hs, h), hs)
  {
    if hs != [] {
      WithoutKeepsOrder(hs[1..], h);
      if hs[0] != h {
        assert Without(hs, h) == [hs[0]] + Without(hs[1..], h);
        assert Without(hs, h)[1..] == Without(hs[1..], h);
      } else {
        assert Without(hs, h) == Without(hs[1..], h);
        SkipHead(Without(hs[1..], h), hs);
      }
    }
  }

  /** A subsequence of the tail of `b` is a subsequence of `b`. */
  lemma {:induction false} SkipHead(a: seq<HandlerId>, b: seq<HandlerId>)
    requires b != []
    requires IsSubsequence(a, b[1..])
    ensures IsSubsequence(a, b)
  {
    if a != [] && a[0] == b[0] {
      SubsequenceOfTail(a, b[1..]);
    }
  }

  /** Dropping the head of a subsequence keeps it a subsequence. */
  lemma {:induction false} SubsequenceOfTail(a: seq<HandlerId>, b: seq<HandlerId>)
    requires a != []
    requires IsSubsequence(a, b)
    ensures IsSubsequence(a[1..], b)
  {
    if a[0] != b[0] {
      SubsequenceOfTail(a, b[1..]);
      SkipHead(a[1..], b);
    } else if a[1..] != [] {
      SkipHead(a[1..], b);
    }
  }

  lemma {:induction false} WithoutAbsentIsIdentity(hs: seq<HandlerId>, h: HandlerId)
    requires h !in hs
    ensures Without(hs, h) == hs
  {
    if hs != [] {
      WithoutAbsentIsIdentity(hs[1..], h);
      assert hs == [hs[0]] + hs[1..];
    }
  }

  /** Registering the same handler twice lists it twice. */
  lemma RegisterTwiceListsTwice(m: Handlers, t: string, h: HandlerId)
    ensures ListFor(Registered(Registered(m, t, h), t, h), t) == ListFor(m, t) + [h, h]
  {
    assert ListFor(m, t) + [h] + [h] == ListFor(m, t) + [h, h];
  }

  /** Removing from a type nobody registered leaves the table as it was. */
  lemma RemoveUnregisteredIsIdentity(m: Handlers, t: string, h: HandlerId)
    requires t !in m
    ensures Removed(m, t, h) == m
  {
  }

  /** Register then remove the same handler: the type's list is the old one
      without that handler, so a handler registered once is gone again. */
  lemma {:induction false} RegisterThenRemove(m: Handlers, t: string, h: HandlerId)
    ensures ListFor(Removed(Registered(m, t, h), t, h), t) == Without(ListFor(m, t), h)
    ensures h !in ListFor(m, t) ==> ListFor(Removed(Registered(m, t, h), t, h), t) == ListFor(m, t)
  {
    WithoutAppend(ListFor(m, t), [h], h);
    assert Without([h], h) == [];
    assert Without(ListFor(m, t), h) + [] == Without(ListFor(m, t), h);
    if h !in ListFor(m, t) {
      WithoutAbsentIsIdentity(ListFor(m, t), h);
    }
  }

  lemma {:induction false} WithoutAppend(a: seq<HandlerId>, b: seq<HandlerId>, h: HandlerId)
    ensures Without(a + b, h) == Without(a, h) + Without(b, h)
  {
    if a == [] {
      assert a + b == b;
    } else {
      assert (a + b)[1..] == a[1..] + b;
      WithoutAppend(a[1..], b, h);
    }
  }

  /** One call of a handler by `handleMessage`: which handler, with which
      payload, and whether it threw (the error is logged and swallowed). */
  datatype Invocation<P> = Invocation(handler: HandlerId, payload: P, threw: bool)

  /** The module-level `messageHandlers` map and the functions over it. */
  class MessageBus {
    var handlers: Handlers

    ghost predicate Valid()
      reads this
    {
      NoEmptyLists(handlers)
    }

    constructor ()
      ensures Valid()
      ensures handlers == map[]
    {
      handlers := map[];
    }

    method Register(t: string, h: HandlerId)
      modifies this
      ensures handlers == Registered(old(handlers), t, h)
      ensures old(Valid()) ==> Valid()
    {
      var hs := ListFor(handlers, t);
      hs := hs + [h];
      handlers := handlers[t := hs];
    }

    method Remove(t: string, h: HandlerId)
      modifies this
      ensures handlers == Removed(old(handlers), t, h)
      ensures old(Valid()) ==> Valid()
    {
      var hs := ListFor(handlers, t);
      var rest := Without(hs, h);
      if |rest| == 0 {
        handlers := handlers - {t};
      } else {
        handlers := handlers[t := rest];
      }
    }

    /** `handleMessage({type: t, payload})`: calls every handler registered
        for `t`, in registration order; `throws` says which of them throw. */
    method HandleMessage<P>(t: string, payload: P, throws: HandlerId -> bool)
      returns (calls: seq<Invocation<P>>)
      requires Valid()
      ensures calls == [] <==> t !in handlers
      ensures |calls| == |ListFor(handlers, t)|
      ensures forall i :: 0 <= i < |calls| ==>
        calls[i] == Invocation(ListFor(handlers, t)[i], payload, throws(ListFor(handlers, t)[i]))
    {
      calls := [];
      if t !in handlers {
        return;
      }
      var hs := handlers[t];
      var i := 0;
      while i < |hs|
        invariant 0 <= i <= |hs|
        invariant |calls| == i
        invariant forall k :: 0 <= k < i ==> calls[k] == Invocation(hs[k], payload, throws(hs[k]))
      {
        var threw := throws(hs[i]);
        calls := calls + [Invocation(hs[i], payload, threw)];
        i := i + 1;
      }
    }
  }
}
