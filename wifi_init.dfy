/** The two decisions wifi_init_AP takes around the event handler: which
    credentials go into the station configuration, and how the bits of the
    event group are read once the wait returns. */
module WifiInit {
  import opened Wrappers
  import opened WifiEvents
  import opened WifiHandler

  /** The build-time (menuconfig) settings: default SSID, default password
      and the retry budget, a signed int in the source. */
  datatype BuildConfig = BuildConfig(ssid: string, password: string, maxRetry: int)

  /** The SSID and password written into the station configuration. */
  datatype Credentials = Credentials(ssid: string, password: string)

  /** The three branches taken after the wait on the event group. */
  datatype Outcome = Connected | Failed | Unexpected

  /** A NULL or empty SSID means "use the build-time defaults". */
  predicate UsesDefault(ssid: Option<string>) {
    ssid.None? || ssid.value == []
  }

  /** A caller that names an SSID must also pass a password: both are
      copied with strcpy, which cannot read from NULL. */
  predicate PasswordGiven(ssid: Option<string>, passwd: Option<string>) {
    UsesDefault(ssid) || passwd.Some?
  }

  /** The credentials the station is configured with. */
  function SelectCredentials(build: BuildConfig, ssid: Option<string>, passwd: Option<string>): (c: Credentials)
    requires PasswordGiven(ssid, passwd)
    ensures UsesDefault(ssid) ==> c.ssid == build.ssid && c.password == build.password
    ensures !UsesDefault(ssid) ==> c.ssid == ssid.value && c.password == passwd.value
    ensures c.ssid == [] ==> build.ssid == []
  {
    if UsesDefault(ssid) then Credentials(build.ssid, build.password)
    else Credentials(ssid.value, passwd.value)
  }

  /** How the bits returned by the wait are read: CONNECTED is tested first,
      so it wins over FAIL; with neither bit set the outcome is unexpected. */
  function Classify(connected: bool, fail: bool): (o: Outcome)
    ensures o == Connected <==> connected
    ensures o == Failed <==> !connected && fail
    ensures o == Unexpected <==> !connected && !fail
  {
    if connected then Connected
    else if fail then Failed
    else Unexpected
  }

  /** The events es handled in order until either bit is set: the waiting
      task wakes up then, reads the bits and unregisters the handler, so
      nothing after that event is handled in this model. From a state with
      at most one bit set, at most one bit is ever set. */
  function RunUntilBit(s: State, maxRetry: int, es: seq<Event>): (r: State)
    ensures Settled(s) ==> r == s
    ensures !(s.connected && s.fail) ==> !(r.connected && r.fail)
    decreases |es|
  {
    if es == [] then s
    else
      var p := RunUntilBit(s, maxRetry, es[..|es| - 1]);
      if Settled(p) then p else Handle(p, maxRetry, es[|es| - 1])
  }

  /** One call of wifi_init_AP seen from the handler's state: a new event
      group starts with both bits clear, while the static retry counter and
      the semaphore slot keep whatever value they had; then the delivered
      events are handled until the wait returns. The wait never sees both
      bits set. */
  function Cycle(s: State, maxRetry: int, es: seq<Event>): (r: State)
    ensures !(r.connected && r.fail)
    ensures InBudget(s.retryNum, maxRetry) ==> InBudget(r.retryNum, maxRetry)
  {
    var cleared := s.(connected := false, fail := false);
    RunUntilBitIsRunPrefix(cleared, maxRetry, es);
    RunUntilBit(cleared, maxRetry, es)
  }

  /** What the call reports: None while the wait has not returned (no bit
      set yet), otherwise the classification of the bits it returned. The
      wait returns only once a bit is set, so it never reads Unexpected. */
  function CycleOutcome(s: State, maxRetry: int, es: seq<Event>): (o: Option<Outcome>)
    ensures o.Some? <==> Settled(Cycle(s, maxRetry, es))
    ensures o != Some(Unexpected)
    ensures o == Some(Connected) <==> Cycle(s, maxRetry, es).connected
    ensures o == Some(Failed) <==> Cycle(s, maxRetry, es).fail
  {
    var r := Cycle(s, maxRetry, es);
    if Settled(r) then Some(Classify(r.connected, r.fail)) else None
  }

  // ---------------------------------------------------------------------
  // The wait and the handler

  /** Until a bit is set, waiting changes nothing: the state is the one the
      handler reaches; and a bit is set when the wait returns exactly when
      the handler, left to run over the same events, sets one. */
  lemma {:induction false} RunUntilBitVsRun(s: State, maxRetry: int, es: seq<Event>)
    ensures var r := RunUntilBit(s, maxRetry, es);
      (!Settled(r) ==> r == Run(s, maxRetry, es)) &&
      (Settled(r) <==> Settled(Run(s, maxRetry, es)))
    decreases |es|
  {
    if es != [] {
      RunUntilBitVsRun(s, maxRetry, es[..|es| - 1]);
    }
  }

  /** The state when the wait returns is the handler's state after some
      prefix of the delivered events. */
  lemma {:induction false} RunUntilBitIsRunPrefix(s: State, maxRetry: int, es: seq<Event>)
    ensures exists k :: 0 <= k <= |es| && RunUntilBit(s, maxRetry, es) == Run(s, maxRetry, es[..k])
    decreases |es|
  {
    if es == [] {
      assert RunUntilBit(s, maxRetry, es) == Run(s, maxRetry, es[..0]);
    } else {
      var init := es[..|es| - 1];
      var p := RunUntilBit(s, maxRetry, init);
      if Settled(p) {
        RunUntilBitIsRunPrefix(s, maxRetry, init);
        var k :| 0 <= k <= |init| && p == Run(s, maxRetry, init[..k]);
        assert init[..k] == es[..k];
      } else {
        RunUntilBitVsRun(s, maxRetry, init);
        assert es[..|es|] == es;
      }
    }
  }

  /** Once a bit is set, later events do not matter. */
  lemma {:induction false} RunUntilBitStays(s: State, maxRetry: int, a: seq<Event>, b: seq<Event>)
    requires Settled(RunUntilBit(s, maxRetry, a))
    ensures RunUntilBit(s, maxRetry, a + b) == RunUntilBit(s, maxRetry, a)
    decreases |b|
  {
    if b == [] {
      assert a + b == a;
    } else {
      var ab := a + b;
      assert ab[..|ab| - 1] == a + b[..|b| - 1];
      RunUntilBitStays(s, maxRetry, a, b[..|b| - 1]);
    }
  }

  /** When no bit is set before the last event of a and that event sets one,
      the wait returns on it, whatever b comes after. */
  lemma RunUntilBitStopsAt(s: State, maxRetry: int, a: seq<Event>, b: seq<Event>)
    requires a != []
    requires !Settled(Run(s, maxRetry, a[..|a| - 1]))
    requires Settled(Run(s, maxRetry, a))
    ensures RunUntilBit(s, maxRetry, a + b) == Run(s, maxRetry, a)
  {
    var init := a[..|a| - 1];
    RunUntilBitVsRun(s, maxRetry, init);
    RunUntilBitStays(s, maxRetry, a, b);
  }

  // ---------------------------------------------------------------------
  // Credentials

  /** The selected credentials are a fixed point: configuring the station
      again with them selects the same pair. */
  lemma SelectionIsStable(build: BuildConfig, ssid: Option<string>, passwd: Option<string>)
    requires PasswordGiven(ssid, passwd)
    ensures var c := SelectCredentials(build, ssid, passwd);
      SelectCredentials(build, Some(c.ssid), Some(c.password)) == c
  {
  }

  /** With a default SSID, whatever password the caller passed is ignored. */
  lemma DefaultIgnoresPassword(build: BuildConfig, ssid: Option<string>, p: Option<string>, q: Option<string>)
    requires UsesDefault(ssid)
    ensures SelectCredentials(build, ssid, p) == SelectCredentials(build, ssid, q)
  {
  }

  // ---------------------------------------------------------------------
  // Outcomes of one call

  /** The wait returns exactly when FAIL is set by the handler or some
      GOT_IP is delivered; otherwise the call stays blocked. */
  lemma {:induction false} WaitReturnsIff(s: State, maxRetry: int, es: seq<Event>)
    ensures var full := Run(s.(connected := false, fail := false), maxRetry, es);
      CycleOutcome(s, maxRetry, es).Some? <==>
        full.fail || exists i :: 0 <= i < |es| && IsGotIp(es[i])
  {
    var cleared := s.(connected := false, fail := false);
    RunUntilBitVsRun(cleared, maxRetry, es);
    RunConnectedIff(cleared, maxRetry, es);
  }

  /** Any run without GOT_IP from a fresh state, with any other events mixed
      in: the call fails exactly when there are more disconnections than
      the budget allows, and then the counter sits at the budget; otherwise
      it stays blocked. */
  lemma {:induction false} FailsIffOverBudget(maxRetry: int, es: seq<Event>)
    requires forall i :: 0 <= i < |es| ==> !IsGotIp(es[i])
    ensures CycleOutcome(Fresh, maxRetry, es) ==
      if Disconnections(es) > Max(0, maxRetry) then Some(Failed) else None
    ensures Disconnections(es) > Max(0, maxRetry) ==>
      Cycle(Fresh, maxRetry, es).retryNum == Max(0, maxRetry)
  {
    assert Fresh.(connected := false, fail := false) == Fresh;
    RunWithoutGotIp(maxRetry, es);
    RunUntilBitVsRun(Fresh, maxRetry, es);
    RunUntilBitIsRunPrefix(Fresh, maxRetry, es);
    var k :| 0 <= k <= |es| && RunUntilBit(Fresh, maxRetry, es) == Run(Fresh, maxRetry, es[..k]);
    RunWithoutGotIp(maxRetry, es[..k]);
  }

  /** Starting, then n+1 disconnections in a row, from a fresh state with a
      budget of n >= 0: the call fails with the counter at n. */
  lemma StartThenBudgetExhausted(n: nat)
    ensures var r := Cycle(Fresh, n, [StaStart] + Disconnects(n + 1));
      r.fail && !r.connected && r.retryNum == n && r.requests == n + 1
    ensures CycleOutcome(Fresh, n, [StaStart] + Disconnects(n + 1)) == Some(Failed)
  {
    assert Fresh.(connected := false, fail := false) == Fresh;
    var es := [StaStart] + Disconnects(n + 1);
    StartThenDisconnects(n, n);
    StartThenDisconnects(n, n + 1);
    assert es[..|es| - 1] == [StaStart] + Disconnects(n);
    RunUntilBitStopsAt(Fresh, n, es, []);
    assert es + [] == es;
  }

  /** Any run a without GOT_IP, with any other events mixed in (extra
      starts, STA_CONNECTED, ...), and with no more disconnections than the
      budget allows, followed by GOT_IP: the call connects, with the counter
      back at 0 and the semaphore raised, whatever arrives after. */
  lemma GotIpWithinBudgetConnects(maxRetry: int, a: seq<Event>, b: seq<Event>)
    requires forall i :: 0 <= i < |a| ==> !IsGotIp(a[i])
    requires Disconnections(a) <= Max(0, maxRetry)
    ensures var r := Cycle(Fresh, maxRetry, a + [GotIp] + b);
      r.retryNum == 0 && r.semaphore && r.connected && !r.fail
    ensures CycleOutcome(Fresh, maxRetry, a + [GotIp] + b) == Some(Connected)
  {
    assert Fresh.(connected := false, fail := false) == Fresh;
    RunWithoutGotIp(maxRetry, a);
    assert (a + [GotIp])[..|a|] == a;
    RunUntilBitStopsAt(Fresh, maxRetry, a + [GotIp], b);
  }

  /** Start, at most n disconnections in a row, then GOT_IP: the call
      connects, with the counter back at 0 and the semaphore raised. */
  lemma ConnectsWithinBudget(n: nat, k: nat)
    requires k <= n
    ensures var r := Cycle(Fresh, n, [StaStart] + Disconnects(k) + [GotIp]);
      r.retryNum == 0 && r.semaphore
    ensures CycleOutcome(Fresh, n, [StaStart] + Disconnects(k) + [GotIp]) == Some(Connected)
  {
    assert Fresh.(connected := false, fail := false) == Fresh;
    var es := [StaStart] + Disconnects(k) + [GotIp];
    StartThenDisconnects(n, k);
    SuccessWithinBudget(n, k);
    assert es[..|es| - 1] == [StaStart] + Disconnects(k);
    RunUntilBitStopsAt(Fresh, n, es, []);
    assert es + [] == es;
  }

  /** If FAIL and a late GOT_IP have both been handled before the wait
      begins, the bits hold both and are read as Connected, because
      CONNECTED is tested first. */
  lemma LateGotIpReadsConnected(n: nat)
    ensures var r := Run(Fresh, n, Disconnects(n + 1) + [GotIp]);
      r.fail && r.connected && Classify(r.connected, r.fail) == Connected
  {
    BothBitsReachable(n);
  }

  /** If the wait is already blocked when FAIL is set, it returns on FAIL
      alone: the same late GOT_IP is then read as Failed. */
  lemma BlockedWaiterReadsFailed(n: nat)
    ensures CycleOutcome(Fresh, n, Disconnects(n + 1) + [GotIp]) == Some(Failed)
  {
    assert Fresh.(connected := false, fail := false) == Fresh;
    FailThreshold(n);
    assert Disconnects(n + 1)[..n] == Disconnects(n);
    RunUntilBitStopsAt(Fresh, n, Disconnects(n + 1), [GotIp]);
  }

  /** wifi_init_AP does not reset the static counter. If it were called
      again after a call that failed, and the network stack bring-up
      succeeded again, the second call would fail on its first
      disconnection, with no retry. */
  lemma FailedCycleLeavesNoRetry(n: nat)
    ensures var first := Cycle(Fresh, n, [StaStart] + Disconnects(n + 1));
      var second := Cycle(first, n, [StaStart, StaDisconnected]);
      second.fail && second.retryNum == n && second.requests == first.requests + 1 &&
      CycleOutcome(first, n, [StaStart, StaDisconnected]) == Some(Failed)
  {
    StartThenBudgetExhausted(n);
    var first := Cycle(Fresh, n, [StaStart] + Disconnects(n + 1));
    var cleared := first.(connected := false, fail := false);
    var es := [StaStart, StaDisconnected];
    assert es[..1] == [StaStart];
    assert [StaStart][..0] == [];
    assert Run(cleared, n, [StaStart][..0]) == cleared;
    assert Run(cleared, n, [StaStart]) == Handle(cleared, n, StaStart);
    RunUntilBitStopsAt(cleared, n, es, []);
    assert es + [] == es;
  }

  /** A budget of 3: start and four disconnections fail with the counter
      at 3. */
  lemma ScenarioBudgetExhausted()
    ensures Cycle(Fresh, 3, [StaStart] + Disconnects(4)).retryNum == 3
    ensures CycleOutcome(Fresh, 3, [StaStart] + Disconnects(4)) == Some(Failed)
  {
    StartThenBudgetExhausted(3);
  }

  /** A budget of 3: start, one disconnection, GOT_IP connects with the
      counter at 0 and the semaphore raised. */
  lemma ScenarioReconnect()
    ensures Cycle(Fresh, 3, [StaStart] + Disconnects(1) + [GotIp]).retryNum == 0
    ensures Cycle(Fresh, 3, [StaStart] + Disconnects(1) + [GotIp]).semaphore
    ensures CycleOutcome(Fresh, 3, [StaStart] + Disconnects(1) + [GotIp]) == Some(Connected)
  {
    ConnectsWithinBudget(3, 1);
  }

  /** A budget of 3: start, association (STA_CONNECTED, which the handler
      ignores) and GOT_IP connect with the counter at 0. */
  lemma ScenarioAssociatedThenGotIp()
    ensures Cycle(Fresh, 3, [StaStart, StaConnected, GotIp]).retryNum == 0
    ensures CycleOutcome(Fresh, 3, [StaStart, StaConnected, GotIp]) == Some(Connected)
  {
    var a := [StaStart, StaConnected];
    assert a[..1] == [StaStart] && [StaStart][..0] == [];
    assert Disconnections([StaStart][..0]) == 0;
    assert Disconnections([StaStart]) == 0;
    assert Disconnections(a) == 0;
    assert a + [GotIp] + [] == [StaStart, StaConnected, GotIp];
    GotIpWithinBudgetConnects(3, a, []);
  }

  /** A budget of 0: start and one disconnection fail, with no retry
      request. */
  lemma ScenarioNoBudget()
    ensures Cycle(Fresh, 0, [StaStart, StaDisconnected]).requests == 1
    ensures CycleOutcome(Fresh, 0, [StaStart, StaDisconnected]) == Some(Failed)
  {
    assert Fresh.(connected := false, fail := false) == Fresh;
    var es := [StaStart, StaDisconnected];
    NonPositiveBudgetFailsAtOnce(0);
    assert es[..1] == [StaStart];
    assert [StaStart][..0] == [];
    assert Run(Fresh, 0, [StaStart][..0]) == Fresh;
    assert Run(Fresh, 0, [StaStart]) == Handle(Fresh, 0, StaStart);
    RunUntilBitStopsAt(Fresh, 0, es, []);
    assert es + [] == es;
  }
}
