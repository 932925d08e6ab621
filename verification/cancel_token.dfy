/** Request cancellation (src/cancel/CancelToken.ts): a token whose cancel
    function takes effect once, recording the reason and settling the token's
    promise with it. */
module Cancellation {
  import opened JsValues

  /** The reason a request was cancelled, with the message given to cancel. */
  datatype Cancel = Cancel(message: Option<string>)

  /** The reason after one cancel call: the first call sets it, later calls keep it. */
  function CancelStep(reason: Option<Cancel>, message: Option<string>): (r: Option<Cancel>)
    ensures reason.None? ==> r == Some(Cancel(message))
    ensures reason.Some? ==> r == reason
  {
    if reason.Some? then reason else Some(Cancel(message))
  }

  /** The reason after a series of cancel calls, in order. */
  function CancelSteps(reason: Option<Cancel>, messages: seq<Option<string>>): Option<Cancel> {
    if messages == [] then reason
    else
      var n := |messages| - 1;
      CancelStep(CancelSteps(reason, messages[..n]), messages[n])
  }

  class CancelToken {
    /** Set by the first cancel call. */
    var reason: Option<Cancel>
    /** The value this.promise is resolved with; None while it is pending. */
    var promise: Option<Cancel>

    /** The promise is resolved exactly when a reason is set, and with that reason. */
    predicate Valid()
      reads this
    {
      promise == reason
    }

    /** A fresh token: no reason, promise pending. The executor the source hands
        the cancel function to is the caller's code; Source below is the use the
        library itself makes of it. */
    constructor ()
      ensures reason == None && promise == None
      ensures Valid()
    {
      reason := None;
      promise := None;
    }

    /** throwIfRequested: throws the reason when one is set, and otherwise returns. */
    method ThrowIfRequested() returns (thrown: Option<Cancel>)
      ensures thrown.Some? <==> reason.Some?
      ensures thrown.Some? ==> thrown == reason
    {
      if reason.Some? {
        return reason;
      }
      return None;
    }

    /** The promise's resolve function, private to the token: cancel calls it
        with the reason it has just recorded. It settles a pending promise; a
        settled one stays as it was. */
    method Resolve(c: Cancel)
      requires reason == Some(c)
      requires promise.None? || promise == reason
      modifies this
      ensures promise == if old(promise).None? then Some(c) else old(promise)
      ensures reason == old(reason)
      ensures Valid()
    {
      if promise.None? {
        promise := Some(c);
      }
    }
  }

  /** The cancel function the token's constructor hands to the executor, bound to its token. */
  class Canceler {
    const token: CancelToken

    constructor (token: CancelToken)
      ensures this.token == token
    {
      this.token := token;
    }

    /** cancel(message): the first call records Cancel(message) and resolves the
        token's promise with it; every later call does nothing. */
    method Invoke(message: Option<string>)
      requires token.Valid()
      modifies token
      ensures token.Valid()
      ensures token.reason == CancelStep(old(token.reason), message)
      ensures old(token.reason).Some? ==> token.promise == old(token.promise)
    {
      if token.reason.Some? {
        return;
      }
      token.reason := Some(Cancel(message));
      token.Resolve(token.reason.value);
    }
  }

  /** source: a fresh token together with the cancel function bound to it. */
  method Source() returns (token: CancelToken, cancel: Canceler)
    ensures fresh(token) && fresh(cancel)
    ensures cancel.token == token
    ensures token.reason == None && token.Valid()
  {
    token := new CancelToken();
    cancel := new Canceler(token);
  }

  /** However many times cancel is called, the reason is the first call's message. */
  lemma {:induction false} FirstCancelWins(messages: seq<Option<string>>)
    requires messages != []
    ensures CancelSteps(None, messages) == Some(Cancel(messages[0]))
  {
    var n := |messages| - 1;
    if n > 0 {
      FirstCancelWins(messages[..n]);
    } else {
      assert messages[..n] == [];
    }
  }

  /** Once a reason is set, no cancel call changes it. */
  lemma {:induction false} CancelledStaysCancelled(c: Cancel, messages: seq<Option<string>>)
    ensures CancelSteps(Some(c), messages) == Some(c)
  {
    if messages != [] {
      CancelledStaysCancelled(c, messages[..|messages| - 1]);
    }
  }
}
