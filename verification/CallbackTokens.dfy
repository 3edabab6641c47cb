/** Tokens by which extensions call scripts back: a one-shot token is good for one delivery. */
module CallbackTokens {
  type Script = nat
  type Token = nat

  const LastToken: nat := 0xFFFF_FFFF_FFFF_FFFF

  datatype Callback = Callback(script: Script, extension: nat, persistent: bool)
  datatype Result = Delivered | NotFound | Invalid | Busy

  /** What a script may do with a callback now. */
  datatype Readiness = Runs | Waits | Retires

  type Callbacks = map<Token, Callback>
  type Lists = map<Script, set<Token>>

  /** Each token is listed by its own script and by no other. */
  predicate Matched(callbacks: Callbacks, lists: Lists) {
    && (forall token :: token in callbacks ==> callbacks[token].script in lists && token in lists[callbacks[token].script])
    && forall script, token :: script in lists && token in lists[script] ==>
         token in callbacks && callbacks[token].script == script
  }

  predicate Issued(callbacks: Callbacks, next: Token) {
    0 < next && forall token :: token in callbacks ==> token < next
  }

  /** The token is there, belongs to the extension and is of the kind asked for. */
  predicate Fits(callbacks: Callbacks, extension: nat, token: Token, persistent: bool) {
    token in callbacks && callbacks[token].extension == extension && callbacks[token].persistent == persistent
  }

  predicate Owned(callbacks: Callbacks, extension: nat, token: Token) {
    token in callbacks && callbacks[token].extension == extension
  }

  function WithoutToken(lists: Lists, callbacks: Callbacks, token: Token): Lists
    requires token in callbacks && callbacks[token].script in lists
  {
    lists[callbacks[token].script := lists[callbacks[token].script] - {token}]
  }

  lemma CancelKeeps(callbacks: Callbacks, lists: Lists, token: Token)
    requires Matched(callbacks, lists) && token in callbacks
    ensures callbacks[token].script in lists && Matched(callbacks - {token}, WithoutToken(lists, callbacks, token))
  {
  }

  lemma CreateKeeps(callbacks: Callbacks, lists: Lists, token: Token, callback: Callback)
    requires Matched(callbacks, lists) && token !in callbacks && callback.script in lists
    ensures Matched(callbacks[token := callback], lists[callback.script := lists[callback.script] + {token}])
  {
  }

  lemma ReleaseKeeps(callbacks: Callbacks, lists: Lists, script: Script)
    requires Matched(callbacks, lists) && script in lists
    ensures Matched(map token | token in callbacks && token !in lists[script] :: callbacks[token], lists[script := {}])
  {
    var after := map token | token in callbacks && token !in lists[script] :: callbacks[token];
    forall token | token in after ensures after[token].script != script {
      assert token in lists[callbacks[token].script];
    }
  }

  lemma ListedByOwner(callbacks: Callbacks, lists: Lists, script: Script)
    requires Matched(callbacks, lists) && script in lists
    ensures forall token :: token in callbacks ==> (token in lists[script] <==> callbacks[token].script == script)
  {
  }

  class Tokens {
    var callbacks: Callbacks
    var lists: Lists
    var next: Token
    /** The one-shot tokens that have been delivered. */
    ghost var spent: set<Token>

    ghost predicate Valid()
      reads this
    {
      && Matched(callbacks, lists) && Issued(callbacks, next)
      && forall token :: token in spent ==> token < next && token !in callbacks
    }

    constructor ()
      ensures Valid() && callbacks == map[] && lists == map[] && spent == {}
    {
      callbacks, lists, next, spent := map[], map[], 1, {};
    }

    method Admit(script: Script)
      requires Valid() && script !in lists
      modifies this`lists
      ensures Valid() && lists == old(lists)[script := {}]
    {
      lists := lists[script := {}];
    }

    /** A new token, never used before; zero when none is left. */
    method Create(script: Script, extension: nat) returns (token: Token)
      requires Valid() && script in lists
      modifies this`callbacks, this`lists, this`next
      ensures Valid()
      ensures token != 0 ==> token == old(next) && token !in old(callbacks) && token !in spent &&
                             callbacks == old(callbacks)[token := Callback(script, extension, false)]
      ensures token == 0 <==> old(next) > LastToken
    {
      if next > LastToken { return 0; }
      CreateKeeps(callbacks, lists, next, Callback(script, extension, false));
      hide Matched;
      token := next;
      callbacks := callbacks[token := Callback(script, extension, false)];
      lists := lists[script := lists[script] + {token}];
      next := next + 1;
    }

    method Forget(token: Token)
      requires Valid() && token in callbacks
      modifies this`callbacks, this`lists
      ensures Valid() && callbacks == old(callbacks) - {token}
      ensures old(callbacks)[token].script in old(lists) && lists == WithoutToken(old(lists), old(callbacks), token)
    {
      CancelKeeps(callbacks, lists, token);
      hide Matched;
      lists := WithoutToken(lists, callbacks, token);
      callbacks := callbacks - {token};
    }

    method Cancel(extension: nat, token: Token) returns (result: Result)
      requires Valid()
      modifies this`callbacks, this`lists
      ensures Valid()
      ensures result == Delivered <==> token in old(callbacks) && old(callbacks)[token].extension == extension
      ensures result == NotFound <==> token !in old(callbacks)
      ensures lists.Keys == old(lists).Keys
      ensures callbacks == if result == Delivered then old(callbacks) - {token} else old(callbacks)
    {
      if token !in callbacks { return NotFound; }
      if callbacks[token].extension != extension { return Invalid; }
      Forget(token);
      return Delivered;
    }

    /** Makes a token good for more than one call. */
    method Retain(extension: nat, token: Token, ready: Readiness) returns (result: Result)
      requires Valid()
      modifies this`callbacks, this`lists
      ensures Valid() && lists.Keys == old(lists).Keys
      ensures result == Delivered <==> Owned(old(callbacks), extension, token) && ready != Retires
      ensures result == Invalid <==> token in old(callbacks) && !Owned(old(callbacks), extension, token)
      ensures result == NotFound <==> token !in old(callbacks) || (Owned(old(callbacks), extension, token) && ready == Retires)
      ensures callbacks == if !Owned(old(callbacks), extension, token) then old(callbacks)
                           else if ready == Retires then old(callbacks) - {token}
                           else old(callbacks)[token := old(callbacks)[token].(persistent := true)]
    {
      if token !in callbacks { return NotFound; }
      if callbacks[token].extension != extension { return Invalid; }
      if ready == Retires {
        Forget(token);
        return NotFound;
      }
      callbacks := callbacks[token := callbacks[token].(persistent := true)];
      return Delivered;
    }

    /** Calls a script back once: the token is gone before the script runs. */
    method Deliver(extension: nat, token: Token, ready: Readiness, busy: bool) returns (result: Result)
      requires Valid()
      modifies this
      ensures Valid() && lists.Keys == old(lists).Keys && next == old(next)
      ensures result == Delivered <==> Fits(old(callbacks), extension, token, false) && ready == Runs && !busy
      ensures result == Busy <==> Fits(old(callbacks), extension, token, false) && ready != Retires && (busy || ready == Waits)
      ensures result == Invalid <==> token in old(callbacks) && !Fits(old(callbacks), extension, token, false)
      ensures result == NotFound <==> token !in old(callbacks) || (Fits(old(callbacks), extension, token, false) && ready == Retires)
      ensures callbacks == if Fits(old(callbacks), extension, token, false) && result != Busy then old(callbacks) - {token} else old(callbacks)
      ensures result == Delivered ==> token !in old(spent)
      ensures spent == if result == Delivered then old(spent) + {token} else old(spent)
    {
      if token !in callbacks { return NotFound; }
      var callback := callbacks[token];
      if callback.extension != extension || callback.persistent { return Invalid; }
      if ready == Retires {
        Forget(token);
        return NotFound;
      }
      if busy || ready == Waits { return Busy; }
      Forget(token);
      spent := spent + {token};
      return Delivered;
    }

    /** Calls a retained callback; a script that fails loses it. */
    method Invoke(extension: nat, token: Token, ready: Readiness, busy: bool, fails: bool) returns (result: Result)
      requires Valid()
      modifies this`callbacks, this`lists
      ensures Valid() && lists.Keys == old(lists).Keys
      ensures result == Delivered <==> Fits(old(callbacks), extension, token, true) && ready == Runs && !busy && !fails
      ensures result == Busy <==> Fits(old(callbacks), extension, token, true) && ready != Retires && (busy || ready == Waits)
      ensures result == Invalid <==>
                || (token in old(callbacks) && !Fits(old(callbacks), extension, token, true))
                || (Fits(old(callbacks), extension, token, true) && ready == Runs && !busy && fails)
      ensures result == NotFound <==> token !in old(callbacks) || (Fits(old(callbacks), extension, token, true) && ready == Retires)
      ensures callbacks == if Fits(old(callbacks), extension, token, true) && result != Busy && result != Delivered then old(callbacks) - {token}
                           else old(callbacks)
    {
      if token !in callbacks { return NotFound; }
      var callback := callbacks[token];
      if callback.extension != extension || !callback.persistent { return Invalid; }
      if ready == Retires {
        Forget(token);
        return NotFound;
      }
      if busy || ready == Waits { return Busy; }
      if fails {
        Forget(token);
        return Invalid;
      }
      return Delivered;
    }

    /** Drops every token of a script. */
    method ReleaseAll(script: Script)
      requires Valid() && script in lists
      modifies this`callbacks, this`lists
      ensures Valid() && lists == old(lists)[script := {}]
      ensures callbacks == map token | token in old(callbacks) && old(callbacks)[token].script != script :: old(callbacks)[token]
    {
      ReleaseKeeps(callbacks, lists, script);
      ListedByOwner(callbacks, lists, script);
      hide Matched;
      var rest := lists[script];
      var kept := callbacks;
      while rest != {}
        invariant rest <= lists[script]
        invariant callbacks == old(callbacks) && lists == old(lists)
        invariant kept == map token | token in callbacks && token !in lists[script] - rest :: callbacks[token]
        decreases rest
      {
        var token :| token in rest;
        kept := kept - {token};
        rest := rest - {token};
      }
      callbacks, lists := kept, lists[script := {}];
    }
  }
}
