# Station-mode Wi-Fi connection supervisor, in Dafny

This project models the connection supervisor of an ESP32 firmware that joins a
Wi-Fi access point in station mode and then wakes a task that makes HTTP and
HTTPS requests. The supervisor is `wifi_event_handler` in `main/src/wifi.c`
together with the decisions that `wifi_init_AP` takes around it.

- `wifi_events.dfy` (module `WifiEvents`): events as (base, id) pairs, the
  three ids the handler reacts to, and the two handler registrations (every
  `WIFI_EVENT` id, and `IP_EVENT_STA_GOT_IP`).
- `wifi_handler.dfy` (module `WifiHandler`): the handler as a function
  `Handle` on the state it mutates. That state is the static retry counter,
  the CONNECTED and FAIL bits of the event group, the semaphore slot and a
  count of association requests (`esp_wifi_connect` calls). `Run` folds
  `Handle` over a sequence of events in delivery order. The lemmas cover each
  transition, the counter bound, bits that are never cleared, the
  "n+1 disconnections fail" threshold, and success within the budget.
- `wifi_init.dfy` (module `WifiInit`): credential defaulting
  (`SelectCredentials`), reading the bits after the wait (`Classify`), the
  wait itself (`RunUntilBit`: events are handled until either bit is set),
  and one call of `wifi_init_AP` seen from the handler's state (`Cycle`,
  `CycleOutcome`). It also holds lemmas that relate the wait to the handler
  and lemmas across calls.
- `semaphore.dfy` (module `Semaphore`): the FreeRTOS binary semaphore
  `xWifiSemaphore` as a class with one boolean slot.
- `wifi_station.dfy` (module `WifiStation`): the class `Supervisor`. Its
  fields are the source's module-level state. `HandleEvent` is the handler,
  `Dispatch` is the event loop delivering one event, and `Connect` is
  `wifi_init_AP`. `HandleEvent` and `Dispatch` are proved to produce
  exactly the state that `Handle` describes, and `Connect` the state that
  `Cycle` describes.

The blocking `xEventGroupWaitBits(..., portMAX_DELAY)` is modelled as a wait
that is already blocked when the first event arrives. `Connect` takes the
events the event loop delivers as a parameter. It handles them until either
bit is set, and then reads the bits. If the events run out first, the call
is still blocked: the outcome is `None` and the handler stays registered.

The code behaves as follows, which a reader may not expect:

- The retry counter is a static variable that only GOT_IP resets, and
  `wifi_init_AP` does not reset it. If `wifi_init_AP` were called again
  after a failed call (the program calls it once), and the network stack
  bring-up at the start of the call succeeded again, the second call would
  fail on its first disconnection (`FailedCycleLeavesNoRetry`).
- The handler does not keep CONNECTED and FAIL apart: a GOT_IP after FAIL
  sets both (`BothBitsReachable`). When both arrive before the wait begins,
  the bits are read as Connected, only because CONNECTED is tested first
  (`LateGotIpReadsConnected`). When the wait is already blocked, it returns
  on FAIL alone and reads Failed (`BlockedWaiterReadsFailed`).
- FAIL is not a terminal state of the handler. Events after it are still
  handled as long as the handler is registered.
- The budget `i_MAX_RETRY` is a signed `int`. A value of 0 or less fails on
  the first disconnection (`NonPositiveBudgetFailsAtOnce`).

## Model

| member | source | states |
|---|---|---|
| `WifiHandler.Handle` | main/src/wifi.c:103-139 | one event never clears CONNECTED, FAIL or the semaphore slot; it keeps the counter in budget; it issues a request exactly on STA_START, or on STA_DISCONNECTED with budget left |
| `WifiHandler.StartOnlyAssociates` | main/src/wifi.c:109-110 | STA_START issues one association request and changes nothing else |
| `WifiHandler.DisconnectRetries` | main/src/wifi.c:111-115 | a disconnection with `retryNum < maxRetry` issues one request, adds 1 to the counter and sets no bit |
| `WifiHandler.DisconnectExhausted` | main/src/wifi.c:111-121 | a disconnection with the budget used up sets FAIL, issues no request, keeps the counter, and repeating it changes nothing |
| `WifiHandler.GotIpConnects` | main/src/wifi.c:129-137 | GOT_IP resets the counter to 0, sets CONNECTED and raises the semaphore; a second GOT_IP changes nothing (binary slot) |
| `WifiHandler.OtherEventsIgnored` | main/src/wifi.c:109-138 | any event other than STA_START, STA_DISCONNECTED and GOT_IP leaves the state unchanged |
| `WifiHandler.UnsubscribedIgnored` | main/src/wifi.c:164-175 | an event the two registrations filter out would be ignored by the handler too |
| `WifiHandler.Run` | main/src/wifi.c:103-139 | events handled one at a time in delivery order never clear CONNECTED, FAIL or the semaphore slot, and keep the counter within `0..max(0, maxRetry)` |
| `WifiHandler.RunConnectedIff` | main/src/wifi.c:129-137 | after a run, CONNECTED (and the semaphore slot) is set if and only if it was set before or the run contained a GOT_IP |
| `WifiHandler.RunWithoutGotIp` | main/src/wifi.c:109-121 | for any run without GOT_IP from a fresh state, other events mixed in: counter = min(disconnections, max(0, budget)), FAIL set iff disconnections exceed that, one request per start and per retry, CONNECTED and semaphore clear |
| `WifiHandler.DisconnectsWithinBudget` | main/src/wifi.c:111-115 | k disconnections within the budget add k to the counter, issue k requests and set no bit |
| `WifiHandler.FailThreshold` | main/src/wifi.c:112-121 | from a fresh state with budget n >= 0, n disconnections leave FAIL clear and the (n+1)-th sets it, with the counter at n |
| `WifiHandler.NonPositiveBudgetFailsAtOnce` | main/src/wifi.c:99-121 | with a budget <= 0, start and one disconnection set FAIL without any retry |
| `WifiHandler.StartThenDisconnects` | main/src/wifi.c:109-121 | start then k <= n+1 disconnections: min(k, n) retries and requests, and FAIL set exactly at the (n+1)-th |
| `WifiHandler.SuccessWithinBudget` | main/src/wifi.c:109-137 | start, k <= n disconnections and GOT_IP end with CONNECTED set, FAIL clear, counter 0 and semaphore raised |
| `WifiHandler.BothBitsReachable` | main/src/wifi.c:116-134 | n+1 disconnections followed by GOT_IP leave both CONNECTED and FAIL set |
| `WifiInit.SelectCredentials` | main/src/wifi.c:177-202 | a NULL or empty SSID selects the build-time SSID and password; any other SSID is configured with the given password; an empty SSID is configured only when the default is empty |
| `WifiInit.Classify` | main/src/wifi.c:228-235 | Connected if and only if CONNECTED is set; Failed if and only if only FAIL is set; Unexpected if and only if neither is set |
| `WifiInit.RunUntilBit` | main/src/wifi.c:218-222 | the wait stops handling events once a bit is set, and from a state without both bits it never sees both |
| `WifiInit.Cycle` | main/src/wifi.c:144-222 | one call clears both bits (new event group), keeps the static counter, and ends with at most one bit set and the counter in budget |
| `WifiInit.CycleOutcome` | main/src/wifi.c:218-235 | the call returns only once a bit is set, never reads Unexpected, and reads Connected (Failed) exactly when CONNECTED (FAIL) is set |
| `WifiInit.RunUntilBitVsRun` | main/src/wifi.c:218-222 | until a bit is set the waited state is the handler's state, and a bit is set at the wait exactly when the handler sets one over the same events |
| `WifiInit.SelectionIsStable` | main/src/wifi.c:192-202 | selecting again with the selected credentials gives the same pair |
| `WifiInit.DefaultIgnoresPassword` | main/src/wifi.c:192-195 | with a NULL or empty SSID, the password passed by the caller has no effect |
| `WifiInit.WaitReturnsIff` | main/src/wifi.c:218-222 | the wait returns if and only if the handler sets FAIL or a GOT_IP is delivered |
| `WifiInit.FailsIffOverBudget` | main/src/wifi.c:111-121 | for any run without GOT_IP from a fresh state, the call fails iff disconnections exceed max(0, budget), with the counter then at that bound; otherwise it stays blocked |
| `WifiInit.StartThenBudgetExhausted` | main/src/wifi.c:109-121 | with budget n >= 0, start and n+1 disconnections end the call as Failed with the counter at n |
| `WifiInit.GotIpWithinBudgetConnects` | main/src/wifi.c:109-137 | for any run without GOT_IP from a fresh state, other events mixed in, with at most max(0, budget) disconnections, a following GOT_IP ends the call as Connected, with the counter at 0 and the semaphore raised, whatever comes after |
| `WifiInit.ConnectsWithinBudget` | main/src/wifi.c:129-137 | with budget n, start, k <= n disconnections in a row and GOT_IP end the call as Connected, with the counter at 0 and the semaphore raised |
| `WifiInit.LateGotIpReadsConnected` | main/src/wifi.c:228-231 | when FAIL and a late GOT_IP both arrive before the wait begins, both bits are set and are read as Connected, because CONNECTED is tested first |
| `WifiInit.BlockedWaiterReadsFailed` | main/src/wifi.c:218-231 | when the wait is already blocked, it returns on FAIL and a later GOT_IP does not change the outcome Failed |
| `WifiInit.FailedCycleLeavesNoRetry` | main/src/wifi.c:98-114 | if `wifi_init_AP` were called again after a failed call, assuming the bring-up at wifi.c:147-159 succeeded again, the counter would still be used up, so the first disconnection would fail without a retry |
| `WifiInit.ScenarioBudgetExhausted` | main/src/wifi.c:111-121 | budget 3: start and four disconnections give Failed with the counter at 3 |
| `WifiInit.ScenarioReconnect` | main/src/wifi.c:111-137 | budget 3: start, one disconnection and GOT_IP give Connected, counter 0, semaphore raised |
| `WifiInit.ScenarioAssociatedThenGotIp` | main/src/wifi.c:109-137 | budget 3: start, STA_CONNECTED and GOT_IP give Connected with the counter at 0 |
| `WifiInit.ScenarioNoBudget` | main/src/wifi.c:111-121 | budget 0: start and one disconnection give Failed after a single association request |
| `Semaphore.BinarySemaphore.constructor` | main/main.c:70 | a new binary semaphore starts empty |
| `Semaphore.BinarySemaphore.Give` | main/src/wifi.c:137 | giving raises the slot and succeeds only if it was not already raised |
| `Semaphore.BinarySemaphore.Take` | main/main.c:51 | taking clears the slot and succeeds exactly when it was raised |
| `WifiStation.Supervisor.constructor` | main/src/wifi.c:97-99 | the counter starts at 0 with no bit set and the handler not registered |
| `WifiStation.Supervisor.HandleEvent` | main/src/wifi.c:103-139 | the handler's new state is `Handle` of the old one, and the counter stays in budget |
| `WifiStation.Supervisor.Dispatch` | main/src/wifi.c:162-175 | a registered handler receives the event as `Handle` describes; an unregistered one changes nothing |
| `WifiStation.Supervisor.Connect` | main/src/wifi.c:142-245 | the call clears both bits, handles the delivered events until a bit is set as `Cycle` describes, returns `CycleOutcome` with the selected credentials, and is unregistered exactly when the wait returned |
| `WifiStation.DisconnectAfterConnectIsDropped` | main/src/wifi.c:237-243 | a disconnection delivered after the call returned leaves the state as the call left it; while the call is blocked it is handled |

## Left out

- Network stack bring-up (`esp_netif_init`, the default event loop, `esp_wifi_init`, `set_mode`, `set_config`, `start`) and the aborts of `ESP_ERROR_CHECK`: foreign calls whose behaviour is not visible here.
- The handler registration calls themselves and the deletion of the event group: modelled only as the `registered` flag and the `Subscribed` filter.
- `WifiStation.Supervisor.Connect`: the wait is modelled as already blocked before the first event. If FAIL and a late GOT_IP were both handled before the wait began, the source would read both bits and report Connected; that order is stated only by `LateGotIpReadsConnected`, on the handler's state.
- `WifiStation.Supervisor.Connect`: events that arrive between the wake-up of the wait and the unregistration are not modelled; the model handles nothing after the first bit is set.
- `WifiStation.DisconnectAfterConnectIsDropped`: the model assumes the two unregistration calls remove the handler. They pass the handler function where ESP-IDF's instance API expects the instance handles returned at registration, which the source never reads; whether anything is removed then depends on ESP-IDF code that is not part of this model.
- Logging, and formatting of the acquired IP address: no effect on state.
- The compile-time choice of the authentication-mode threshold: preprocessor configuration with no runtime behaviour.
- The fixed sizes of the SSID and password buffers in `wifi_config_t` that `strcpy` writes into: that layout belongs to ESP-IDF headers that are not part of this model. The copy is modelled as plain string assignment.
- `WifiInit.SelectCredentials`: a non-empty SSID with a NULL password is undefined behaviour in the source (`strcpy` from NULL), so it is excluded by a precondition instead of modelled.
- The 32-bit width of `i_retry_num`: the counter only grows while it is below `i_MAX_RETRY`, so it cannot overflow.
- All of `main/main.c` except the semaphore: NVS flash initialisation, task creation, and the request task's loop and its HTTP calls. `http_client.h` is not part of this model. The task's blocking take is modelled only as one `Take` attempt.
- Concurrency: the event loop delivers events one at a time, so the handler runs sequentially; the threads themselves are not modelled.
