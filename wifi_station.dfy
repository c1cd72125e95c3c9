/** The station's connection supervisor as the source keeps it: module-level
    state that wifi_event_handler mutates event by event, and wifi_init_AP,
    which registers the handler, waits for a bit and reads the outcome. */
module WifiStation {
  import opened Wrappers
  import opened WifiEvents
  import opened WifiHandler
  import opened WifiInit
  import opened Semaphore

  class Supervisor {
    /** Build-time configuration; build.maxRetry is i_MAX_RETRY. */
    const build: BuildConfig
    /** xWifiSemaphore, shared with the request task. */
    const sem: BinarySemaphore
    /** i_retry_num. */
    var retryNum: int
    /** The two bits of x_wifi_event_group. */
    var connectedBit: bool
    var failBit: bool
    /** Whether the handler is currently registered with the event loop. */
    var registered: bool
    /** How many association requests (esp_wifi_connect) were issued. */
    ghost var requests: nat

    /** The retry counter is within budget. */
    ghost predicate Valid()
      reads this
    {
      InBudget(retryNum, build.maxRetry)
    }

    /** The part of the state the handler acts on. */
    ghost function Abstract(): State
      reads this, sem
    {
      State(retryNum, connectedBit, failBit, sem.raised, requests)
    }

    /** Program start: the counter is statically 0, the event group does not
        exist yet (no bit set) and the handler is not registered. */
    constructor (build: BuildConfig, sem: BinarySemaphore)
      ensures Valid() && this.build == build && this.sem == sem
      ensures retryNum == 0 && !connectedBit && !failBit && !registered && requests == 0
    {
      this.build := build;
      this.sem := sem;
      retryNum := 0;
      connectedBit, failBit := false, false;
      registered := false;
      requests := 0;
    }

    /** wifi_event_handler: one event, as the event loop hands it over. */
    method HandleEvent(e: Event)
      requires Valid()
      modifies this, sem
      ensures Valid()
      ensures Abstract() == Handle(old(Abstract()), build.maxRetry, e)
      ensures registered == old(registered)
    {
      if e.base == WifiEvent && e.id == WIFI_EVENT_STA_START {
        requests := requests + 1;
      } else if e.base == WifiEvent && e.id == WIFI_EVENT_STA_DISCONNECTED {
        if retryNum < build.maxRetry {
          requests := requests + 1;
          retryNum := retryNum + 1;
        } else {
          failBit := true;
        }
      } else if e.base == IpEvent && e.id == IP_EVENT_STA_GOT_IP {
        retryNum := 0;
        connectedBit := true;
        var _ := sem.Give();
      }
    }

    /** The event loop delivering one event: it reaches the handler only
        while the handler is registered and one of its registrations
        matches; otherwise nothing happens. */
    method Dispatch(e: Event)
      requires Valid()
      modifies this, sem
      ensures Valid()
      ensures registered == old(registered)
      ensures Abstract() == if registered then Handle(old(Abstract()), build.maxRetry, e)
                            else old(Abstract())
    {
      if registered && Subscribed(e) {
        HandleEvent(e);
      } else if registered {
        UnsubscribedIgnored(Abstract(), build.maxRetry, e);
      }
    }

    /** wifi_init_AP: creates a new event group, registers the handler,
        fills the station configuration and waits until either bit is set;
        es stands for the events the event loop delivers meanwhile. When a
        bit is set the wait returns, the bits are read and the handler is
        unregistered. When es runs out first, the call is still blocked
        (outcome None) and the handler stays registered. */
    method Connect(ssid: Option<string>, passwd: Option<string>, es: seq<Event>)
      returns (outcome: Option<Outcome>, config: Credentials)
      requires Valid()
      requires PasswordGiven(ssid, passwd)
      modifies this, sem
      ensures Valid()
      ensures Abstract() == Cycle(old(Abstract()), build.maxRetry, es)
      ensures outcome == CycleOutcome(old(Abstract()), build.maxRetry, es)
      ensures registered <==> outcome.None?
      ensures config == SelectCredentials(build, ssid, passwd)
    {
      connectedBit, failBit := false, false;
      registered := true;
      ghost var start := Abstract();

      config := Credentials(build.ssid, build.password);
      if !(ssid.None? || ssid.value == []) {
        config := Credentials(ssid.value, passwd.value);
      }

      var i := 0;
      while i < |es| && !connectedBit && !failBit
        invariant 0 <= i <= |es|
        invariant Valid() && registered
        invariant Abstract() == RunUntilBit(start, build.maxRetry, es[..i])
      {
        assert es[..i + 1][..i] == es[..i];
        Dispatch(es[i]);
        i := i + 1;
      }
      if i == |es| {
        assert es[..i] == es;
      } else {
        assert es[..i] + es[i..] == es;
        RunUntilBitStays(start, build.maxRetry, es[..i], es[i..]);
      }

      if connectedBit || failBit {
        outcome := Some(Classify(connectedBit, failBit));
        registered := false;
      } else {
        outcome := None;
      }
    }
  }

  /** After wifi_init_AP has returned, the handler is unregistered: a
      disconnection that follows is dropped, not retried. While the call is
      still blocked, the same disconnection is handled. */
  method DisconnectAfterConnectIsDropped(s: Supervisor, ssid: Option<string>, passwd: Option<string>, es: seq<Event>)
    returns (outcome: Option<Outcome>)
    requires s.Valid() && PasswordGiven(ssid, passwd)
    modifies s, s.sem
    ensures outcome == CycleOutcome(old(s.Abstract()), s.build.maxRetry, es)
    ensures var after := Cycle(old(s.Abstract()), s.build.maxRetry, es);
      s.Abstract() == if outcome.Some? then after
                      else Handle(after, s.build.maxRetry, StaDisconnected)
  {
    var config;
    outcome, config := s.Connect(ssid, passwd, es);
    s.Dispatch(StaDisconnected);
  }
}
