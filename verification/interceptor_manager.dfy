/** The interceptor registry (src/core/InterceptorManager.ts): an array that
    only grows, where ejecting an interceptor leaves an empty slot so that the
    ids handed out stay valid. */
module Interceptors {
  import opened JsValues

  /** A handler on a promise: from the settled value to the next outcome. */
  type Handler = Value -> Outcome

  /** A registered interceptor: the fulfilment handler and an optional rejection handler. */
  datatype Interceptor = Interceptor(resolved: Handler, rejected: Option<Handler>)

  /** The registered interceptors, in slot order, with the ejected slots skipped. */
  function Live(slots: seq<Option<Interceptor>>): seq<Interceptor>
  {
    if slots == [] then []
    else
      var n := |slots| - 1;
      Live(slots[..n]) + (if slots[n].Some? then [slots[n].value] else [])
  }

  /** The slots after eject(id): a slot holding an interceptor is emptied;
      an empty slot or an id outside the array changes nothing. */
  function Ejected(slots: seq<Option<Interceptor>>, id: int): (r: seq<Option<Interceptor>>)
    ensures |r| == |slots|
    ensures forall i :: 0 <= i < |slots| && i != id ==> r[i] == slots[i]
    ensures 0 <= id < |slots| ==> r[id] == None
  {
    if 0 <= id < |slots| && slots[id].Some? then slots[id := None] else slots
  }

  class InterceptorManager {
    var interceptors: seq<Option<Interceptor>>

    /** A new manager holds no slots. */
    constructor ()
      ensures interceptors == []
    {
      interceptors := [];
    }

    /** use: appends the interceptor in a new slot and returns that slot's index. */
    method Use(resolved: Handler, rejected: Option<Handler>) returns (id: nat)
      modifies this
      ensures interceptors == old(interceptors) + [Some(Interceptor(resolved, rejected))]
      ensures id == |old(interceptors)| && id == |interceptors| - 1
    {
      interceptors := interceptors + [Some(Interceptor(resolved, rejected))];
      id := |interceptors| - 1;
    }

    /** eject: empties slot id if it holds an interceptor. */
    method Eject(id: int)
      modifies this
      ensures interceptors == Ejected(old(interceptors), id)
    {
      if 0 <= id < |interceptors| && interceptors[id].Some? {
        interceptors := interceptors[id := None];
      }
    }

    /** forEach: the interceptors the callback is handed, in the order it is handed them. */
    method ForEach() returns (visited: seq<Interceptor>)
      ensures visited == Live(interceptors)
    {
      visited := [];
      var i := 0;
      assert interceptors[..0] == [];
      while i < |interceptors|
        invariant 0 <= i <= |interceptors|
        invariant visited == Live(interceptors[..i])
      {
        assert interceptors[..i + 1][..i] == interceptors[..i];
        if interceptors[i] != None {
          visited := visited + [interceptors[i].value];
        }
        i := i + 1;
      }
      assert interceptors[..i] == interceptors;
    }
  }

  // ---------------------------------------------------------------------------
  // Properties of the registry.

  /** The live interceptors of two runs of slots, one after the other. */
  lemma {:induction false} LiveAppend(a: seq<Option<Interceptor>>, b: seq<Option<Interceptor>>)
    ensures Live(a + b) == Live(a) + Live(b)
  {
    if b == [] {
      assert a + b == a;
    } else {
      var n := |b| - 1;
      assert (a + b)[..|a| + n] == a + b[..n];
      LiveAppend(a, b[..n]);
    }
  }

  /** forEach hands over exactly the interceptors the slots hold. */
  lemma {:induction false} LiveMembers(slots: seq<Option<Interceptor>>)
    ensures forall x :: x in Live(slots) <==> Some(x) in slots
  {
    if slots != [] {
      var n := |slots| - 1;
      LiveMembers(slots[..n]);
      assert slots == slots[..n] + [slots[n]];
    }
  }

  /** forEach visits the slots in increasing index order: the interceptors of
      the first i slots come first. */
  lemma LiveOrder(slots: seq<Option<Interceptor>>, i: nat)
    requires i <= |slots|
    ensures Live(slots) == Live(slots[..i]) + Live(slots[i..])
  {
    assert slots == slots[..i] + slots[i..];
    LiveAppend(slots[..i], slots[i..]);
  }

  /** A new interceptor is handed over last, after all earlier ones. */
  lemma UseAppendsLive(slots: seq<Option<Interceptor>>, x: Interceptor)
    ensures Live(slots + [Some(x)]) == Live(slots) + [x]
  {
    LiveAppend(slots, [Some(x)]);
    assert [Some(x)][..0] == [];
  }

  /** Ejecting twice is ejecting once. */
  lemma EjectIdempotent(slots: seq<Option<Interceptor>>, id: int)
    ensures Ejected(Ejected(slots, id), id) == Ejected(slots, id)
  {
  }

  /** Ejecting an id outside the array, or an already empty slot, changes nothing. */
  lemma EjectNoOp(slots: seq<Option<Interceptor>>, id: int)
    requires !(0 <= id < |slots|) || slots[id].None?
    ensures Ejected(slots, id) == slots
  {
  }

  /** The live interceptors around one slot. */
  lemma LiveAround(slots: seq<Option<Interceptor>>, id: nat)
    requires id < |slots|
    ensures Live(slots) == Live(slots[..id]) + Live([slots[id]]) + Live(slots[id + 1..])
  {
    var pre, mid, post := slots[..id], [slots[id]], slots[id + 1..];
    assert pre + mid == slots[..id + 1];
    assert slots[..id + 1] + post == slots;
    LiveAppend(pre + mid, post);
    LiveAppend(pre, mid);
  }

  lemma LiveOne(x: Option<Interceptor>)
    ensures Live([x]) == if x.Some? then [x.value] else []
  {
    assert [x][..0] == [];
  }

  /** A live slot's interceptor is handed over between those of the slots
      before it and those of the slots after it. */
  lemma LiveAt(slots: seq<Option<Interceptor>>, id: nat)
    requires id < |slots| && slots[id].Some?
    ensures Live(slots) == Live(slots[..id]) + [slots[id].value] + Live(slots[id + 1..])
  {
    LiveAround(slots, id);
    LiveOne(slots[id]);
  }

  /** Ejecting a live slot removes exactly that interceptor from the visit
      order (compare LiveAt): the others keep their order. */
  lemma EjectDropsOne(slots: seq<Option<Interceptor>>, id: nat)
    requires id < |slots| && slots[id].Some?
    ensures Live(Ejected(slots, id)) == Live(slots[..id]) + Live(slots[id + 1..])
  {
    var e := Ejected(slots, id);
    assert e[..id] == slots[..id];
    assert e[id + 1..] == slots[id + 1..];
    LiveAround(e, id);
    LiveOne(e[id]);
  }
}
