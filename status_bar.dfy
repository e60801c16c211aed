/** The status bar: connection text and the latency indicator. */
module StatusBar {
  import opened Session

  const Green: string := "text-green-400"
  const Yellow: string := "text-yellow-400"
  const Red: string := "text-red-400"

  /** `getLatencyColor`: under 80 ms green, under 200 ms yellow, otherwise red. */
  function LatencyColor(ms: int): (c: string)
    ensures c == Green <==> ms < 80
    ensures c == Yellow <==> 80 <= ms < 200
    ensures c == Red <==> 200 <= ms
  {
    if ms < 80 then Green else if ms < 200 then Yellow else Red
  }

  /** How bad a colour says the latency is. */
  function Severity(c: string): nat {
    if c == Green then 0 else if c == Yellow then 1 else 2
  }

  /** A slower round trip never shows a milder colour. */
  lemma LatencyColorMonotone(a: int, b: int)
    requires a <= b
    ensures Severity(LatencyColor(a)) <= Severity(LatencyColor(b))
  {
  }

  /** `isConnected && latency > -1`: the indicator is hidden before the first ping
      answer (latency starts at -1) and while disconnected. */
  predicate LatencyShown(isConnected: bool, latency: int): (shown: bool)
    ensures !isConnected || latency < 0 ==> !shown
    ensures isConnected && latency >= 0 ==> shown
  {
    isConnected && latency > -1
  }

  function StatusText(isConnected: bool): (t: string)
    ensures t == "Connected" <==> isConnected
    ensures t == "Disconnected" <==> !isConnected
  {
    if isConnected then "Connected" else "Disconnected"
  }

  /** The editor page reports "connected" when its member list is non-empty
      (`clients.length > 0`, client/src/pages/EditorPage.jsx:785). */
  predicate PageConnected(clients: seq<ClientInfo>) {
    |clients| > 0
  }

  /** Once the page holds the member list of a room, it shows "Connected", and the
      latency as soon as a ping has been answered. */
  lemma JoinedShowsConnected(room: Room, latency: int)
    requires RoomValid(room) && latency >= 0
    ensures StatusText(PageConnected(ClientList(room))) == "Connected"
    ensures LatencyShown(PageConnected(ClientList(room)), latency)
  {
  }

  /** Before the first ping answer the indicator is hidden whatever the connection. */
  lemma NoLatencyBeforeFirstPing(isConnected: bool)
    ensures !LatencyShown(isConnected, -1)
  {
  }
}
