/** The document-sync relay: the `docs` registry of shared documents keyed by
    document name, the set of connections on each, and what the server does with
    each frame a connection sends.

    The replicated document and the wire encodings are opaque. A frame is already
    classified by its leading message type (sync step 1, sync step 2, update,
    awareness, another type, or undecodable); the bytes the sync protocol writes as
    a reply are a parameter; the document is the list of sync payloads merged into
    it. Whether a connection is OPEN is transport state, passed in as a set.
    The five-minute purge timers are kept as a queue: they all have the same delay,
    so they fire in the order they were armed, and nothing ever cancels one. */
module YjsRelay {
  import opened Common

  type ClientId = nat
  type Bytes = seq<bv8>

  datatype SyncKind = SyncStep1 | SyncStep2 | Update

  datatype Frame =
    | Sync(kind: SyncKind, body: Bytes)
    | Awareness(update: Bytes)
    | OtherType(messageType: nat, body: Bytes)
    | Malformed(raw: Bytes)

  datatype Outbound =
    | SyncStep1Request        // the server's own sync step 1, sent on connect
    | AwarenessStates         // the current awareness states, sent on connect
    | SyncReply(body: Bytes)  // what the sync protocol wrote in answer to a frame
    | Relay(frame: Frame)     // a client's frame, forwarded unchanged

  datatype Send = Send(to: ClientId, payload: Outbound)

  /** One shared document: its connections in the order they were added, and the
      sync payloads merged into it. */
  datatype DocEntry = DocEntry(clients: seq<ClientId>, merged: seq<Bytes>)

  const UrlPrefix: string := "/yjs/"

  /** `request.url?.replace('/yjs/', '') || 'default'`: only the first occurrence
      of the prefix is removed, wherever it is. */
  function DocName(url: Option<string>): (name: string)
    ensures name != ""
    ensures url.Some? && !Includes(url.value, UrlPrefix) && url.value != "" ==> name == url.value
  {
    var stripped := if url.Some? then RemoveFirst(url.value, UrlPrefix) else "";
    OrElse(stripped, "default")
  }

  /** A URL `/yjs/<room>` names the document `<room>`; with nothing after the prefix,
      or no URL at all, the name is 'default'. */
  lemma DocNameOfPath(room: string)
    ensures DocName(Some(UrlPrefix + room)) == if room == "" then "default" else room
    ensures DocName(None) == "default"
  {
    RemoveFirstAtStart(UrlPrefix, room);
  }

  /** Any URL holding the prefix names the document left once its FIRST occurrence
      is cut out, wherever that is: "/yjsx/yjs/a" names "/yjsxa". */
  lemma DocNameCutsFirst(url: string)
    requires Includes(url, UrlPrefix)
    ensures exists i :: && OccursAt(url, UrlPrefix, i)
                         && (forall j :: 0 <= j < i ==> !OccursAt(url, UrlPrefix, j))
                         && DocName(Some(url)) == OrElse(url[..i] + url[i + |UrlPrefix|..], "default")
  {
    RemoveFirstCutsFirst(url, UrlPrefix);
  }

  predicate NoDups(s: seq<ClientId>) {
    forall i, j :: 0 <= i < j < |s| ==> s[i] != s[j]
  }

  // ---------------------------------------------------------------------------
  // Fan-out: `clients.forEach(client => if (client !== ws && OPEN) client.send(message))`
  // ---------------------------------------------------------------------------

  /** What the fan-out sends: at most one frame per listed connection, each one the
      frame itself, addressed to an open connection of the document other than the
      sender. */
  function Broadcast(clients: seq<ClientId>, sender: ClientId, open: set<ClientId>, frame: Frame): (out: seq<Send>)
    ensures |out| <= |clients|
    ensures forall k :: 0 <= k < |out| ==>
      out[k].payload == Relay(frame) && out[k].to in clients && out[k].to != sender && out[k].to in open
  {
    if clients == [] then []
    else
      var c := clients[|clients| - 1];
      var init := clients[..|clients| - 1];
      assert forall x :: x in init ==> x in clients;
      Broadcast(init, sender, open, frame)
        + (if c != sender && c in open then [Send(c, Relay(frame))] else [])
  }

  /** The frame goes, unchanged, to every open connection of the document other than
      the sender, in connection order, and to nobody else; with no duplicate
      connections, each gets it once. */
  lemma {:induction false} BroadcastSpec(clients: seq<ClientId>, sender: ClientId, open: set<ClientId>, frame: Frame)
    ensures var out := Broadcast(clients, sender, open, frame);
      && |out| <= |clients|
      && (forall k :: 0 <= k < |out| ==>
            out[k].payload == Relay(frame) && out[k].to in clients && out[k].to != sender && out[k].to in open)
      && (forall c :: c in clients && c != sender && c in open ==> exists k :: 0 <= k < |out| && out[k].to == c)
      && (NoDups(clients) ==> forall k, l :: 0 <= k < l < |out| ==> out[k].to != out[l].to)
  {
    if clients != [] {
      var init := clients[..|clients| - 1];
      var c := clients[|clients| - 1];
      BroadcastSpec(init, sender, open, frame);
      var prev := Broadcast(init, sender, open, frame);
      var out := Broadcast(clients, sender, open, frame);
      assert forall x :: x in clients <==> x in init || x == c;
      forall x | x in clients && x != sender && x in open
        ensures exists k :: 0 <= k < |out| && out[k].to == x
      {
        if x in init {
          var k :| 0 <= k < |prev| && prev[k].to == x;
          assert out[k] == prev[k];
        } else {
          assert out[|out| - 1].to == x;
        }
      }
      if NoDups(clients) {
        assert NoDups(init);
        assert c !in init;
        forall k, l | 0 <= k < l < |out| ensures out[k].to != out[l].to {
          if l == |prev| {
            assert out[k] == prev[k];
          } else {
            assert out[k] == prev[k] && out[l] == prev[l];
          }
        }
      }
    }
  }

  /** The relay loop itself. */
  method FanOut(clients: seq<ClientId>, sender: ClientId, open: set<ClientId>, frame: Frame)
    returns (out: seq<Send>)
    ensures out == Broadcast(clients, sender, open, frame)
  {
    out := [];
    var i := 0;
    while i < |clients|
      invariant 0 <= i <= |clients|
      invariant out == Broadcast(clients[..i], sender, open, frame)
    {
      var client := clients[i];
      assert clients[..i + 1][..i] == clients[..i];
      if client != sender && client in open {
        out := out + [Send(client, Relay(frame))];
      }
      i := i + 1;
    }
    assert clients[..i] == clients;
  }

  /** `clients.delete(ws)`. */
  function RemoveClient(clients: seq<ClientId>, ws: ClientId): (r: seq<ClientId>)
    ensures forall c :: c in r <==> c in clients && c != ws
    ensures ws !in clients ==> r == clients
    ensures NoDups(clients) ==> NoDups(r)
    ensures NoDups(clients) && ws in clients ==> |r| == |clients| - 1
  {
    if clients == [] then []
    else if clients[0] == ws then
      var r := RemoveClient(clients[1..], ws);
      assert NoDups(clients) ==> ws !in clients[1..];
      r
    else
      var r := RemoveClient(clients[1..], ws);
      assert NoDups(clients) ==> clients[0] !in clients[1..];
      assert ws in clients ==> ws in clients[1..];
      assert ws !in clients ==> clients == [clients[0]] + clients[1..];
      [clients[0]] + r
  }

  /** Every live connection is listed in the document it was opened on. */
  ghost predicate ConnsListed(docs: map<string, DocEntry>, conns: map<ClientId, string>) {
    forall ws :: ws in conns ==> conns[ws] in docs && ws in docs[conns[ws]].clients
  }

  /** Every listed connection is live, on that document. */
  ghost predicate ListedLive(docs: map<string, DocEntry>, conns: map<ClientId, string>) {
    forall d, ws :: d in docs && ws in docs[d].clients ==> ws in conns && conns[ws] == d
  }

  ghost predicate NoDupClients(docs: map<string, DocEntry>) {
    forall d :: d in docs ==> NoDups(docs[d].clients)
  }

  /** The registry invariant. The entry a connection's handlers captured when it
      opened is therefore still the registered one for as long as it is live: a
      document with a live connection is never purged. */
  ghost predicate Registry(docs: map<string, DocEntry>, conns: map<ClientId, string>) {
    ConnsListed(docs, conns) && ListedLive(docs, conns) && NoDupClients(docs)
  }

  /** `getYDoc(name)` followed by `clients.add(ws)`. */
  function AddClient(docs: map<string, DocEntry>, d: string, ws: ClientId): (r: map<string, DocEntry>)
    ensures d in r && r.Keys == docs.Keys + {d}
    ensures forall x :: x in docs && x != d ==> r[x] == docs[x]
    ensures d in docs ==> r[d] == docs[d].(clients := docs[d].clients + [ws])
    ensures d !in docs ==> r[d] == DocEntry([ws], [])
  {
    var e := if d in docs then docs[d] else DocEntry([], []);
    docs[d := e.(clients := e.clients + [ws])]
  }

  /** Connecting a new connection keeps the registry consistent. */
  lemma ConnectPreserves(docs: map<string, DocEntry>, conns: map<ClientId, string>, d: string, ws: ClientId)
    requires Registry(docs, conns) && ws !in conns
    ensures Registry(AddClient(docs, d, ws), conns[ws := d])
  {
    ConnectKeepsListed(docs, conns, d, ws);
    ConnectKeepsLive(docs, conns, d, ws);
    var docs' := AddClient(docs, d, ws);
    forall x | x in docs' ensures NoDups(docs'[x].clients) {
      if x == d && d in docs {
        assert NoDups(docs[d].clients);
        assert ws !in docs[d].clients;
      }
    }
  }

  /** After a connect, every live connection, the new one included, is listed. */
  lemma ConnectKeepsListed(docs: map<string, DocEntry>, conns: map<ClientId, string>, d: string, ws: ClientId)
    requires ConnsListed(docs, conns)
    ensures ConnsListed(AddClient(docs, d, ws), conns[ws := d])
  {
    var docs', conns' := AddClient(docs, d, ws), conns[ws := d];
    forall c | c in conns' ensures conns'[c] in docs' && c in docs'[conns'[c]].clients {
      if c != ws {
        assert c in docs[conns[c]].clients;
      }
    }
  }

  /** After a connect, every listed connection is live on its document. */
  lemma ConnectKeepsLive(docs: map<string, DocEntry>, conns: map<ClientId, string>, d: string, ws: ClientId)
    requires ListedLive(docs, conns) && ws !in conns
    ensures ListedLive(AddClient(docs, d, ws), conns[ws := d])
  {
    var docs', conns' := AddClient(docs, d, ws), conns[ws := d];
    forall x, c | x in docs' && c in docs'[x].clients ensures c in conns' && conns'[c] == x {
      if x != d {
        assert docs'[x] == docs[x];
      } else if c != ws {
        var before := if d in docs then docs[d].clients else [];
        assert docs'[d].clients == before + [ws];
        assert c in before;
        assert c in conns && conns[c] == d;
      }
    }
  }

  /** A merged update only changes the document's content. */
  lemma MergePreserves(docs: map<string, DocEntry>, conns: map<ClientId, string>, d: string, body: Bytes)
    requires Registry(docs, conns) && d in docs
    ensures Registry(docs[d := docs[d].(merged := docs[d].merged + [body])], conns)
  {
    var docs' := docs[d := docs[d].(merged := docs[d].merged + [body])];
    assert forall x :: x in docs ==> docs'[x].clients == docs[x].clients;
  }

  /** Closing a live connection keeps the registry consistent. */
  lemma ClosePreserves(docs: map<string, DocEntry>, conns: map<ClientId, string>, ws: ClientId)
    requires Registry(docs, conns) && ws in conns
    ensures var d := conns[ws];
      Registry(docs[d := docs[d].(clients := RemoveClient(docs[d].clients, ws))], conns - {ws})
  {
    CloseKeepsListed(docs, conns, ws);
    CloseKeepsLive(docs, conns, ws);
    var d := conns[ws];
    var docs' := docs[d := docs[d].(clients := RemoveClient(docs[d].clients, ws))];
    forall x | x in docs' ensures NoDups(docs'[x].clients) {
      assert NoDups(docs[x].clients);
    }
  }

  /** After a close, every remaining live connection is still listed. */
  lemma CloseKeepsListed(docs: map<string, DocEntry>, conns: map<ClientId, string>, ws: ClientId)
    requires ConnsListed(docs, conns) && ws in conns
    ensures var d := conns[ws];
      ConnsListed(docs[d := docs[d].(clients := RemoveClient(docs[d].clients, ws))], conns - {ws})
  {
    var d := conns[ws];
    var docs' := docs[d := docs[d].(clients := RemoveClient(docs[d].clients, ws))];
    var conns' := conns - {ws};
    forall c | c in conns' ensures conns'[c] in docs' && c in docs'[conns'[c]].clients {
      assert conns'[c] == conns[c];
      assert c in docs[conns[c]].clients;
    }
  }

  /** After a close, every listed connection is still live. */
  lemma CloseKeepsLive(docs: map<string, DocEntry>, conns: map<ClientId, string>, ws: ClientId)
    requires ListedLive(docs, conns) && ws in conns && conns[ws] in docs
    ensures var d := conns[ws];
      ListedLive(docs[d := docs[d].(clients := RemoveClient(docs[d].clients, ws))], conns - {ws})
  {
    var d := conns[ws];
    var rest := RemoveClient(docs[d].clients, ws);
    var docs' := docs[d := docs[d].(clients := rest)];
    var conns' := conns - {ws};
    forall x, c | x in docs' && c in docs'[x].clients ensures c in conns' && conns'[c] == x {
      if x == d {
        assert c in docs[d].clients && c != ws;
      } else {
        assert c in docs[x].clients;
      }
    }
  }

  /** Deleting a document with no connection keeps the registry consistent. */
  lemma PurgePreserves(docs: map<string, DocEntry>, conns: map<ClientId, string>, d: string)
    requires Registry(docs, conns) && d in docs && docs[d].clients == []
    ensures Registry(docs - {d}, conns)
  {
    forall c | c in conns ensures conns[c] in docs - {d} {
      assert c in docs[conns[c]].clients;
    }
  }

  // ---------------------------------------------------------------------------
  // The registry and its connection handlers
  // ---------------------------------------------------------------------------

  class YjsServer {
    /** `docs`: document name to document entry. */
    var docs: map<string, DocEntry>
    /** The document name each live connection's handlers were set up with. */
    var conns: map<ClientId, string>
    /** Armed purge timers, oldest first. */
    var timers: seq<string>

    ghost predicate Valid()
      reads this
    {
      Registry(docs, conns)
    }

    constructor ()
      ensures Valid() && docs == map[] && conns == map[] && timers == []
    {
      docs, conns, timers := map[], map[], [];
    }

    /** A new connection: find or create its document (`getYDoc`), add the
        connection, and send it the server's sync step 1 and the awareness states. */
    method OnConnect(ws: ClientId, url: Option<string>) returns (docName: string, out: seq<Send>)
      requires Valid() && ws !in conns
      modifies this
      ensures Valid()
      ensures docName == DocName(url)
      ensures docs == AddClient(old(docs), docName, ws)
      ensures conns == old(conns)[ws := docName] && timers == old(timers)
      ensures out == [Send(ws, SyncStep1Request), Send(ws, AwarenessStates)]
    {
      docName := DocName(url);
      ConnectPreserves(docs, conns, docName, ws);
      docs := AddClient(docs, docName, ws);
      conns := conns[ws := docName];
      out := [Send(ws, SyncStep1Request), Send(ws, AwarenessStates)];
    }

    /** A frame from a live connection. A sync frame is answered to the sender when
        the protocol wrote a reply; step 2 and update frames are merged and relayed
        to the other open connections; awareness frames are relayed; anything else
        is dropped and the connection stays open. */
    method OnMessage(ws: ClientId, frame: Frame, reply: Bytes, open: set<ClientId>) returns (out: seq<Send>)
      requires Valid()
      modifies this
      ensures Valid() && conns == old(conns) && timers == old(timers)
      ensures ws !in conns ==> docs == old(docs) && out == []
      ensures ws in conns ==>
        var d := conns[ws];
        var e := old(docs)[d];
        match frame
        case Sync(kind, body) =>
          var answer := if |reply| > 0 then [Send(ws, SyncReply(reply))] else [];
          && (kind == SyncStep1 ==> docs == old(docs) && out == answer)
          && (kind != SyncStep1 ==>
                docs == old(docs)[d := e.(merged := e.merged + [body])]
                && out == answer + Broadcast(e.clients, ws, open, frame))
        case Awareness(_) => docs == old(docs) && out == Broadcast(e.clients, ws, open, frame)
        case OtherType(_, _) => docs == old(docs) && out == []
        case Malformed(_) => docs == old(docs) && out == []
    {
      out := [];
      if ws !in conns {
        return;
      }
      var d := conns[ws];
      var entry := docs[d];
      match frame {
        case Sync(kind, body) =>
          if |reply| > 0 {
            out := [Send(ws, SyncReply(reply))];
          }
          if kind == SyncStep2 || kind == Update {
            MergePreserves(docs, conns, d, body);
            docs := docs[d := entry.(merged := entry.merged + [body])];
            var relayed := FanOut(entry.clients, ws, open, frame);
            out := out + relayed;
          }
        case Awareness(_) =>
          out := FanOut(entry.clients, ws, open, frame);
        case OtherType(_, _) =>
        case Malformed(_) =>
      }
    }

    /** A connection closes: drop it from its document, and arm a purge timer when
        that leaves the document without connections. */
    method OnClose(ws: ClientId)
      requires Valid()
      modifies this
      ensures Valid()
      ensures ws !in old(conns) ==> docs == old(docs) && conns == old(conns) && timers == old(timers)
      ensures ws in old(conns) ==>
        var d := old(conns)[ws];
        var e := old(docs)[d];
        var rest := RemoveClient(e.clients, ws);
        && docs == old(docs)[d := e.(clients := rest)]
        && conns == old(conns) - {ws}
        && timers == old(timers) + (if rest == [] then [d] else [])
    {
      if ws !in conns {
        return;
      }
      var d := conns[ws];
      var entry := docs[d];
      var rest := RemoveClient(entry.clients, ws);
      ClosePreserves(docs, conns, ws);
      docs := docs[d := entry.(clients := rest)];
      conns := conns - {ws};
      if |rest| == 0 {
        timers := timers + [d];
      }
    }

    /** The oldest purge timer fires: its document is deleted only if it exists and
        still has no connection. */
    method OnPurgeTimer() returns (purged: bool)
      requires Valid()
      modifies this
      ensures Valid() && conns == old(conns)
      ensures old(timers) == [] ==> docs == old(docs) && timers == [] && !purged
      ensures old(timers) != [] ==>
        var d := old(timers)[0];
        && timers == old(timers)[1..]
        && purged == (d in old(docs) && old(docs)[d].clients == [])
        && docs == if purged then old(docs) - {d} else old(docs)
    {
      purged := false;
      if timers == [] {
        return;
      }
      var d := timers[0];
      timers := timers[1..];
      if d in docs && docs[d].clients == [] {
        PurgePreserves(docs, conns, d);
        docs := docs - {d};
        purged := true;
      }
    }
  }

  /** A connection opens on a document that has none and closes again: the
      document is left with no connection and one more purge timer is queued. */
  method OpenAndLeave(s: YjsServer, ws: ClientId, url: Option<string>)
    requires s.Valid() && ws !in s.conns
    requires DocName(url) in s.docs ==> s.docs[DocName(url)].clients == []
    modifies s
    ensures s.Valid() && s.conns == old(s.conns)
    ensures DocName(url) in s.docs && s.docs[DocName(url)].clients == []
    ensures s.timers == old(s.timers) + [DocName(url)]
  {
    var d := DocName(url);
    var name, out := s.OnConnect(ws, url);
    assert s.docs[d].clients == [ws] && s.conns[ws] == d;
    assert RemoveClient([ws], ws) == [] by {
      assert NoDups([ws]);
    }
    s.OnClose(ws);
  }

  /** Timers are never cancelled: on any consistent registry, a document with no
      connection that is opened and left, opened and left again, is purged when the
      FIRST of the two timers fires (five minutes after the first emptying, not the
      last), and the second timer stays queued. */
  method StaleTimerPurges(s: YjsServer, ws1: ClientId, ws2: ClientId, url: Option<string>) returns (purged: bool)
    requires s.Valid() && s.timers == []
    requires ws1 !in s.conns && ws2 !in s.conns
    requires DocName(url) in s.docs ==> s.docs[DocName(url)].clients == []
    modifies s
    ensures s.Valid() && purged
    ensures DocName(url) !in s.docs && s.timers == [DocName(url)]
  {
    OpenAndLeave(s, ws1, url);
    OpenAndLeave(s, ws2, url);
    purged := s.OnPurgeTimer();
  }
}
