/** The station's event handler (wifi_event_handler) as a function on the
    state it mutates, and what follows from it for any sequence of events. */
module WifiHandler {
  import opened WifiEvents

  /** Everything the handler reads or writes: the static retry counter, the
      two bits of the event group, the slot of the binary semaphore, and the
      number of association requests (esp_wifi_connect calls) issued. */
  datatype State = State(
    retryNum: int,
    connected: bool,
    fail: bool,
    semaphore: bool,
    requests: nat)

  /** The state before any event: the counter is statically 0, the bits of
      a new event group are clear and a new binary semaphore is empty. */
  const Fresh: State := State(0, false, false, false, 0)

  function Max(a: int, b: int): (m: int) {
    if a < b then b else a
  }

  function Min(a: int, b: int): (m: int) {
    if a < b then a else b
  }

  /** Either bit of the event group is set: what the wait in wifi_init_AP
      is waiting for. */
  predicate Settled(s: State) {
    s.connected || s.fail
  }

  /** The retry counter never goes below 0 nor above the budget; a budget
      of 0 or less allows no retry at all. */
  predicate InBudget(retryNum: int, maxRetry: int) {
    0 <= retryNum <= Max(0, maxRetry)
  }

  /** One event handled. The bits and the semaphore slot are only ever set,
      the counter stays in budget, and at most one request is issued. */
  function Handle(s: State, maxRetry: int, e: Event): (r: State)
    ensures s.connected ==> r.connected
    ensures s.fail ==> r.fail
    ensures s.semaphore ==> r.semaphore
    ensures InBudget(s.retryNum, maxRetry) ==> InBudget(r.retryNum, maxRetry)
    ensures r.requests == s.requests + 1 <==>
              IsStart(e) || (IsDisconnect(e) && s.retryNum < maxRetry)
    ensures r.requests == s.requests || r.requests == s.requests + 1
  {
    if IsStart(e) then
      s.(requests := s.requests + 1)
    else if IsDisconnect(e) then
      if s.retryNum < maxRetry then
        s.(requests := s.requests + 1, retryNum := s.retryNum + 1)
      else
        s.(fail := true)
    else if IsGotIp(e) then
      s.(retryNum := 0, connected := true, semaphore := true)
    else
      s
  }

  /** The events es handled one after another, in delivery order, as the
      event loop hands them to the handler. Whatever the events, the bits
      and the semaphore slot are never cleared and the counter stays in
      budget. */
  function Run(s: State, maxRetry: int, es: seq<Event>): (r: State)
    ensures s.connected ==> r.connected
    ensures s.fail ==> r.fail
    ensures s.semaphore ==> r.semaphore
    ensures InBudget(s.retryNum, maxRetry) ==> InBudget(r.retryNum, maxRetry)
    decreases |es|
  {
    if es == [] then s
    else Handle(Run(s, maxRetry, es[..|es| - 1]), maxRetry, es[|es| - 1])
  }

  // ---------------------------------------------------------------------
  // One event at a time

  /** STA_START asks to associate once and touches nothing else. */
  lemma StartOnlyAssociates(s: State, maxRetry: int)
    ensures Handle(s, maxRetry, StaStart) ==
              State(s.retryNum, s.connected, s.fail, s.semaphore, s.requests + 1)
  {
  }

  /** A disconnection with budget left retries: one request, counter + 1,
      no bit set. */
  lemma DisconnectRetries(s: State, maxRetry: int)
    requires s.retryNum < maxRetry
    ensures var r := Handle(s, maxRetry, StaDisconnected);
      r.requests == s.requests + 1 && r.retryNum == s.retryNum + 1 &&
      r.connected == s.connected && r.fail == s.fail && r.semaphore == s.semaphore
  {
  }

  /** A disconnection with the budget used up sets FAIL, issues no request,
      keeps the counter, and handling it again changes nothing more. */
  lemma DisconnectExhausted(s: State, maxRetry: int)
    requires s.retryNum >= maxRetry
    ensures var r := Handle(s, maxRetry, StaDisconnected);
      r.fail && r.requests == s.requests && r.retryNum == s.retryNum &&
      r.connected == s.connected && r.semaphore == s.semaphore &&
      Handle(r, maxRetry, StaDisconnected) == r
  {
  }

  /** GOT_IP resets the counter, sets CONNECTED and raises the semaphore;
      a second GOT_IP finds the binary slot already raised and changes
      nothing. */
  lemma GotIpConnects(s: State, maxRetry: int)
    ensures var r := Handle(s, maxRetry, GotIp);
      r.retryNum == 0 && r.connected && r.semaphore &&
      r.fail == s.fail && r.requests == s.requests &&
      Handle(r, maxRetry, GotIp) == r
  {
  }

  /** Every other WIFI_EVENT id reaches the handler (it is registered for
      all of them) and is ignored; so is anything the registrations filter
      out. */
  lemma OtherEventsIgnored(s: State, maxRetry: int, e: Event)
    requires !IsStart(e) && !IsDisconnect(e) && !IsGotIp(e)
    ensures Handle(s, maxRetry, e) == s
  {
  }

  /** An event the registrations do not let through would be ignored by the
      handler anyway, so filtering it out changes nothing. */
  lemma UnsubscribedIgnored(s: State, maxRetry: int, e: Event)
    requires !Subscribed(e)
    ensures Handle(s, maxRetry, e) == s
  {
  }

  // ---------------------------------------------------------------------
  // Sequences of events

  /** Handling a + b is handling a, then b. */
  lemma {:induction false} RunAppend(s: State, maxRetry: int, a: seq<Event>, b: seq<Event>)
    ensures Run(s, maxRetry, a + b) == Run(Run(s, maxRetry, a), maxRetry, b)
    decreases |b|
  {
    if b == [] {
      assert a + b == a;
    } else {
      var ab := a + b;
      assert ab[..|ab| - 1] == a + b[..|b| - 1];
      assert ab[|ab| - 1] == b[|b| - 1];
      RunAppend(s, maxRetry, a, b[..|b| - 1]);
    }
  }

  /** CONNECTED is set after a run exactly when it was set before or some
      event of the run was GOT_IP; the semaphore slot likewise. */
  lemma {:induction false} RunConnectedIff(s: State, maxRetry: int, es: seq<Event>)
    ensures var r := Run(s, maxRetry, es);
      (r.connected <==> s.connected || exists i :: 0 <= i < |es| && IsGotIp(es[i])) &&
      (r.semaphore <==> s.semaphore || exists i :: 0 <= i < |es| && IsGotIp(es[i]))
    decreases |es|
  {
    if es != [] {
      var init := es[..|es| - 1];
      RunConnectedIff(s, maxRetry, init);
      if exists i :: 0 <= i < |init| && IsGotIp(init[i]) {
        var i :| 0 <= i < |init| && IsGotIp(init[i]);
        assert es[i] == init[i];
      }
      if exists i :: 0 <= i < |es| && IsGotIp(es[i]) {
        var i :| 0 <= i < |es| && IsGotIp(es[i]);
        if i < |init| {
          assert init[i] == es[i];
        }
      }
    }
  }

  /** How many events of es are STA_DISCONNECTED. */
  function Disconnections(es: seq<Event>): (n: nat)
    decreases |es|
  {
    if es == [] then 0
    else Disconnections(es[..|es| - 1]) + (if IsDisconnect(es[|es| - 1]) then 1 else 0)
  }

  /** How many events of es are STA_START. */
  function Starts(es: seq<Event>): (n: nat)
    decreases |es|
  {
    if es == [] then 0
    else Starts(es[..|es| - 1]) + (if IsStart(es[|es| - 1]) then 1 else 0)
  }

  /** Any run without GOT_IP, whatever other events it mixes in: the counter
      is the number of disconnections capped at the budget, FAIL is set
      exactly when there were more disconnections than the budget allows,
      every start and every retry issued one request, and CONNECTED and the
      semaphore stay clear. */
  lemma {:induction false} RunWithoutGotIp(maxRetry: int, es: seq<Event>)
    requires forall i :: 0 <= i < |es| ==> !IsGotIp(es[i])
    ensures var r := Run(Fresh, maxRetry, es);
      var d := Disconnections(es);
      r.retryNum == Min(d, Max(0, maxRetry)) &&
      (r.fail <==> d > Max(0, maxRetry)) &&
      !r.connected && !r.semaphore &&
      r.requests == Starts(es) + Min(d, Max(0, maxRetry))
    decreases |es|
  {
    if es != [] {
      RunWithoutGotIp(maxRetry, es[..|es| - 1]);
    }
  }

  /** Disconnections within the budget each retry: k of them raise the
      counter by k, issue k requests and set no bit. */
  lemma {:induction false} DisconnectsWithinBudget(s: State, maxRetry: int, k: nat)
    requires s.retryNum + k <= maxRetry
    ensures var r := Run(s, maxRetry, Disconnects(k));
      r.retryNum == s.retryNum + k && r.requests == s.requests + k &&
      r.connected == s.connected && r.fail == s.fail && r.semaphore == s.semaphore
  {
    if k > 0 {
      assert Disconnects(k)[..k - 1] == Disconnects(k - 1);
      DisconnectsWithinBudget(s, maxRetry, k - 1);
    }
  }

  /** From a fresh state with a budget of n >= 0: n disconnections in a row
      leave FAIL clear, and the (n+1)-th sets it, with the counter at n. */
  lemma FailThreshold(n: nat)
    ensures !Run(Fresh, n, Disconnects(n)).fail
    ensures var r := Run(Fresh, n, Disconnects(n + 1));
      r.fail && !r.connected && r.retryNum == n && r.requests == n
  {
    DisconnectsWithinBudget(Fresh, n, n);
    assert Disconnects(n + 1)[..n] == Disconnects(n);
  }

  /** A budget of 0 or less fails on the first disconnection, without any
      retry (the source compares the counter with a signed int). */
  lemma NonPositiveBudgetFailsAtOnce(maxRetry: int)
    requires maxRetry <= 0
    ensures var r := Run(Fresh, maxRetry, [StaStart, StaDisconnected]);
      r.fail && !r.connected && r.retryNum == 0 && r.requests == 1
  {
    assert [StaStart, StaDisconnected][..1] == [StaStart];
    assert [StaStart][..0] == [];
    assert Run(Fresh, maxRetry, [StaStart]) == Handle(Fresh, maxRetry, StaStart);
  }

  /** Start and then k <= n disconnections: k retries, no bit set yet;
      one more disconnection than the budget sets FAIL. */
  lemma StartThenDisconnects(n: nat, k: nat)
    requires k <= n + 1
    ensures var r := Run(Fresh, n, [StaStart] + Disconnects(k));
      r.retryNum == Min(k, n) && r.requests == 1 + Min(k, n) &&
      !r.connected && !r.semaphore && (r.fail <==> k == n + 1)
  {
    var started := Run(Fresh, n, [StaStart]);
    assert [StaStart][..0] == [];
    assert Run(Fresh, n, [StaStart][..0]) == Fresh;
    assert started == Handle(Fresh, n, StaStart);
    RunAppend(Fresh, n, [StaStart], Disconnects(k));
    if k <= n {
      DisconnectsWithinBudget(started, n, k);
    } else {
      DisconnectsWithinBudget(started, n, n);
      assert Disconnects(k)[..n] == Disconnects(n);
    }
  }

  /** k <= n disconnections and then GOT_IP end connected, with the counter
      back at 0, the semaphore raised and FAIL clear. */
  lemma SuccessWithinBudget(n: nat, k: nat)
    requires k <= n
    ensures var r := Run(Fresh, n, [StaStart] + Disconnects(k) + [GotIp]);
      r.connected && !r.fail && r.semaphore && r.retryNum == 0 && r.requests == k + 1
  {
    var started := Run(Fresh, n, [StaStart]);
    assert [StaStart][..0] == [];
    assert Run(Fresh, n, [StaStart][..0]) == Fresh;
    assert started == Handle(Fresh, n, StaStart);
    DisconnectsWithinBudget(started, n, k);
    RunAppend(Fresh, n, [StaStart], Disconnects(k));
    var es := [StaStart] + Disconnects(k) + [GotIp];
    assert es[..|es| - 1] == [StaStart] + Disconnects(k);
  }

  /** Nothing in the handler keeps CONNECTED and FAIL apart: a GOT_IP that
      arrives after the budget ran out sets CONNECTED beside FAIL. */
  lemma BothBitsReachable(n: nat)
    ensures var r := Run(Fresh, n, Disconnects(n + 1) + [GotIp]);
      r.connected && r.fail
  {
    FailThreshold(n);
    var es := Disconnects(n + 1) + [GotIp];
    assert es[..|es| - 1] == Disconnects(n + 1);
  }
}
