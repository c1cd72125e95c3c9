/** The lifecycle events that the ESP-IDF default event loop delivers to the
    station's event handler, and the two registrations that decide which of
    them reach it. */
module WifiEvents {

  /** The event bases the handler is registered for. An event base is a
      string constant in ESP-IDF; only these two are ever registered. */
  datatype EventBase = WifiEvent | IpEvent

  /** One event as the event loop hands it to a handler: its base and its
      numeric id. The payload (the acquired address of a GOT_IP event) is
      only logged, so it is not part of the model. */
  datatype Event = Event(base: EventBase, id: int)

  // Event ids of ESP-IDF's wifi_event_t and ip_event_t enumerations.
  const WIFI_EVENT_STA_START: int := 2
  const WIFI_EVENT_STA_CONNECTED: int := 4
  const WIFI_EVENT_STA_DISCONNECTED: int := 5
  const IP_EVENT_STA_GOT_IP: int := 0

  const StaStart: Event := Event(WifiEvent, WIFI_EVENT_STA_START)
  const StaConnected: Event := Event(WifiEvent, WIFI_EVENT_STA_CONNECTED)
  const StaDisconnected: Event := Event(WifiEvent, WIFI_EVENT_STA_DISCONNECTED)
  const GotIp: Event := Event(IpEvent, IP_EVENT_STA_GOT_IP)

  predicate IsStart(e: Event) {
    e.base == WifiEvent && e.id == WIFI_EVENT_STA_START
  }

  predicate IsDisconnect(e: Event) {
    e.base == WifiEvent && e.id == WIFI_EVENT_STA_DISCONNECTED
  }

  predicate IsGotIp(e: Event) {
    e.base == IpEvent && e.id == IP_EVENT_STA_GOT_IP
  }

  /** The handler is registered twice: for every id of WIFI_EVENT
      (ESP_EVENT_ANY_ID) and for IP_EVENT_STA_GOT_IP of IP_EVENT. An event
      reaches it exactly when one of the two registrations matches. */
  predicate Subscribed(e: Event) {
    e.base == WifiEvent || (e.base == IpEvent && e.id == IP_EVENT_STA_GOT_IP)
  }

  /** n disconnection events in a row. */
  function Disconnects(n: nat): (es: seq<Event>)
    ensures |es| == n
    ensures forall i :: 0 <= i < n ==> IsDisconnect(es[i])
  {
    seq(n, _ => StaDisconnected)
  }
}
