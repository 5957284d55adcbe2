/** The server's subscription index and the subscriber sets that the connections keep themselves. */
module PubSub {

  datatype Entry = Entry(key: string, conn: nat)

  datatype Delivery = Delivery(conn: nat, key: string, data: string)

  /** A connection: its own subscriptions, and how far its shutdown has come. */
  datatype Conn = Conn(subscribers: set<string>, released: bool, pendingCloses: nat, closed: bool, alive: bool)

  const NEW_CONN: Conn := Conn({}, false, 0, false, true)

  /** The index is a multimap from keys to connections: a bag of entries in no particular order. */
  datatype State = State(subMap: multiset<Entry>, conns: map<nat, Conn>, delivered: multiset<Delivery>, errors: nat)

  const INITIAL: State := State(multiset{}, map[], multiset{}, 0)

  datatype Event =
    | Accept(conn: nat)
    | Subscribe(conn: nat, key: string)
    | Unsubscribe(conn: nat, key: string)
    | Release(conn: nat)
    | Close(conn: nat)
    | Destroy(conn: nat)
    | Publish(key: string, data: string)

  function ConnOf(s: State, id: nat): Conn {
    if id in s.conns then s.conns[id] else NEW_CONN
  }

  /** Connections that a message is forwarded to. */
  predicate Live(s: State, id: nat) {
    id in s.conns && s.conns[id].alive && !s.conns[id].released
  }

  /**
   * A connection handles requests until it is closed, is closed once for every release, and is destroyed
   * when nothing of it is pending.
   */
  predicate Enabled(s: State, e: Event) {
    match e
    case Accept(id) => id !in s.conns
    case Subscribe(id, _) => id in s.conns && s.conns[id].alive && !s.conns[id].closed
    case Unsubscribe(id, _) => id in s.conns && s.conns[id].alive && !s.conns[id].closed
    case Release(id) => id in s.conns && s.conns[id].alive
    case Close(id) => id in s.conns && s.conns[id].alive && s.conns[id].pendingCloses > 0
    case Destroy(id) => id in s.conns && s.conns[id].alive && s.conns[id].pendingCloses == 0
    case Publish(_, _) => true
  }

  function WithConn(s: State, id: nat, c: Conn): State {
    s.(conns := s.conns[id := c])
  }

  function EntriesOf(keys: set<string>, id: nat): set<Entry> {
    set key | key in keys :: Entry(key, id)
  }

  /** An index without the entries of some keys. */
  function Without(m: multiset<Entry>, keys: set<string>, id: nat): multiset<Entry> {
    m - multiset(EntriesOf(keys, id))
  }

  function AddSubscriber(s: State, id: nat, key: string): State {
    var c := ConnOf(s, id);
    if key in c.subscribers then s
    else WithConn(s, id, c.(subscribers := c.subscribers + {key})).(subMap := s.subMap + multiset{Entry(key, id)})
  }

  function DropSubscriber(s: State, id: nat, key: string): State {
    var c := ConnOf(s, id);
    if key !in c.subscribers then s
    else WithConn(s, id, c.(subscribers := c.subscribers - {key})).(subMap := s.subMap - multiset{Entry(key, id)})
  }

  function CloseConn(s: State, id: nat): State
    requires ConnOf(s, id).pendingCloses > 0
  {
    var c := ConnOf(s, id);
    WithConn(s, id, c.(subscribers := {}, closed := true, pendingCloses := c.pendingCloses - 1))
      .(subMap := Without(s.subMap, c.subscribers, id))
  }

  function ReleaseConn(s: State, id: nat): State {
    var c := ConnOf(s, id);
    WithConn(s, id, c.(released := true, pendingCloses := c.pendingCloses + 1))
  }

  ghost predicate Indexed(s: State, key: string) {
    exists e :: e in s.subMap && e.key == key
  }

  /** How many copies of a message one publication delivers. */
  function Copies(s: State, key: string, data: string, d: Delivery): nat {
    if d.key == key && d.data == data && Live(s, d.conn) then s.subMap[Entry(key, d.conn)] else 0
  }

  /** Publishing walks the entries of the key; it complains if there are none while others have some. */
  ghost predicate Published(s: State, key: string, data: string, t: State) {
    && t == s.(delivered := t.delivered, errors := t.errors)
    && (forall d :: t.delivered[d] == s.delivered[d] + Copies(s, key, data, d))
    && t.errors == s.errors + (if !Indexed(s, key) && s.subMap != multiset{} then 1 else 0)
  }

  ghost predicate Step(s: State, e: Event, t: State) {
    Enabled(s, e) &&
    match e
    case Accept(id) => t == WithConn(s, id, NEW_CONN)
    case Subscribe(id, key) => t == AddSubscriber(s, id, key)
    case Unsubscribe(id, key) => t == DropSubscriber(s, id, key)
    case Release(id) => t == ReleaseConn(s, id)
    case Close(id) => t == CloseConn(s, id)
    case Destroy(id) => t == WithConn(s, id, s.conns[id].(alive := false))
    case Publish(key, data) => Published(s, key, data, t)
  }

  /** A run: states joined by events. */
  ghost predicate Run(states: seq<State>, events: seq<Event>) {
    && |states| == |events| + 1 && states[0] == INITIAL
    && forall i :: 0 <= i < |events| ==> Step(states[i], events[i], states[i + 1])
  }

  // Agreement of the index with the connections.

  /** Every subscription is indexed exactly once, and nothing else is. */
  ghost predicate Agree(s: State) {
    forall e :: s.subMap[e] == if e.key in ConnOf(s, e.conn).subscribers then 1 else 0
  }

  lemma {:induction false} AddAgrees(s: State, id: nat, key: string)
    requires Agree(s)
    ensures Agree(AddSubscriber(s, id, key))
  {
    var t := AddSubscriber(s, id, key);
    forall e ensures t.subMap[e] == if e.key in ConnOf(t, e.conn).subscribers then 1 else 0 {
      assert s.subMap[e] == if e.key in ConnOf(s, e.conn).subscribers then 1 else 0;
    }
  }

  lemma {:induction false} DropAgrees(s: State, id: nat, key: string)
    requires Agree(s)
    ensures Agree(DropSubscriber(s, id, key))
  {
    var t := DropSubscriber(s, id, key);
    forall e ensures t.subMap[e] == if e.key in ConnOf(t, e.conn).subscribers then 1 else 0 {
      assert s.subMap[e] == if e.key in ConnOf(s, e.conn).subscribers then 1 else 0;
    }
  }

  lemma {:induction false} CloseAgrees(s: State, id: nat)
    requires Agree(s) && ConnOf(s, id).pendingCloses > 0
    ensures Agree(CloseConn(s, id))
  {
    var t := CloseConn(s, id);
    forall e ensures t.subMap[e] == if e.key in ConnOf(t, e.conn).subscribers then 1 else 0 {
      assert s.subMap[e] == if e.key in ConnOf(s, e.conn).subscribers then 1 else 0;
      assert multiset(EntriesOf(ConnOf(s, id).subscribers, id))[e] == if e in EntriesOf(ConnOf(s, id).subscribers, id) then 1 else 0;
    }
  }

  lemma {:induction false} SameSubscribersAgree(s: State, t: State)
    requires Agree(s) && t.subMap == s.subMap
    requires forall id :: ConnOf(t, id).subscribers == ConnOf(s, id).subscribers
    ensures Agree(t)
  {
    forall e ensures t.subMap[e] == if e.key in ConnOf(t, e.conn).subscribers then 1 else 0 {
      assert s.subMap[e] == if e.key in ConnOf(s, e.conn).subscribers then 1 else 0;
    }
  }

  lemma {:induction false} StepAgrees(s: State, e: Event, t: State)
    requires Agree(s) && Step(s, e, t)
    ensures Agree(t)
  {
    hide Agree, AddSubscriber, DropSubscriber, CloseConn;
    match e
    case Subscribe(id, key) => AddAgrees(s, id, key);
    case Unsubscribe(id, key) => DropAgrees(s, id, key);
    case Close(id) => CloseAgrees(s, id);
    case _ => SameSubscribersAgree(s, t);
  }

  // Shutdown.

  /** A closed connection has no subscriptions, and was released before. */
  ghost predicate ClosedEmpty(s: State) {
    forall id :: id in s.conns ==>
      && (s.conns[id].closed ==> s.conns[id].subscribers == {})
      && (s.conns[id].closed || s.conns[id].pendingCloses > 0 ==> s.conns[id].released)
  }

  lemma {:induction false} StepClosedEmpty(s: State, e: Event, t: State)
    requires ClosedEmpty(s) && Step(s, e, t)
    ensures ClosedEmpty(t)
  {
    hide Copies, Indexed, EntriesOf;
  }

  /** In every state of every run the index agrees with the connections, and closed ones are gone from it. */
  lemma {:induction false} EveryRunAgrees(states: seq<State>, events: seq<Event>, i: nat)
    requires Run(states, events) && i < |states|
    ensures Agree(states[i]) && ClosedEmpty(states[i])
  {
    hide Step, Agree, ClosedEmpty;
    if i == 0 {
      InitialAgrees();
    } else {
      EveryRunAgrees(states, events, i - 1);
      StepAgrees(states[i - 1], events[i - 1], states[i]);
      StepClosedEmpty(states[i - 1], events[i - 1], states[i]);
    }
  }

  lemma InitialAgrees()
    ensures Agree(INITIAL) && ClosedEmpty(INITIAL)
  {
  }

  /** Once closed, a connection has no entry left, whatever happens later. */
  lemma {:induction false} ClosedNotIndexed(states: seq<State>, events: seq<Event>, i: nat, e: Entry)
    requires Run(states, events) && i < |states| && ConnOf(states[i], e.conn).closed
    ensures e !in states[i].subMap
  {
    hide Run;
    EveryRunAgrees(states, events, i);
    assert states[i].subMap[e] == if e.key in ConnOf(states[i], e.conn).subscribers then 1 else 0;
  }

  lemma {:induction false} StepStaysClosed(s: State, e: Event, t: State, id: nat)
    requires Step(s, e, t) && ConnOf(s, id).closed
    ensures ConnOf(t, id).closed
  {
    hide Copies, Indexed, EntriesOf;
  }

  /** Closing lasts. */
  lemma {:induction false} StaysClosed(states: seq<State>, events: seq<Event>, i: nat, j: nat, id: nat)
    requires Run(states, events) && i <= j < |states| && ConnOf(states[i], id).closed
    ensures ConnOf(states[j], id).closed
    decreases j - i
  {
    hide Step;
    if i < j {
      StepStaysClosed(states[i], events[i], states[i + 1], id);
      StaysClosed(states, events, i + 1, j, id);
    }
  }

  // Forwarding.

  /** A message goes exactly once to each live subscriber of its key, and to nobody else. */
  lemma {:induction false} ForwardOnce(states: seq<State>, events: seq<Event>, i: nat, d: Delivery)
    requires Run(states, events) && i < |events| && events[i].Publish?
    ensures states[i + 1].delivered[d] == states[i].delivered[d] +
              if d.key == events[i].key && d.data == events[i].data && Live(states[i], d.conn)
                 && d.key in ConnOf(states[i], d.conn).subscribers then 1 else 0
  {
    hide Agree, ClosedEmpty;
    EveryRunAgrees(states, events, i);
    assert Step(states[i], events[i], states[i + 1]);
    AgreeAt(states[i], Entry(d.key, d.conn));
  }

  lemma AgreeAt(s: State, e: Entry)
    requires Agree(s)
    ensures s.subMap[e] == if e.key in ConnOf(s, e.conn).subscribers then 1 else 0
  {
  }

  /** The complaint is made exactly if nobody subscribes to the key but somebody subscribes to something. */
  lemma {:induction false} ComplaintExactly(states: seq<State>, events: seq<Event>, i: nat)
    requires Run(states, events) && i < |events| && events[i].Publish?
    ensures states[i + 1].errors != states[i].errors
       <==> && (forall id :: events[i].key !in ConnOf(states[i], id).subscribers)
            && (exists id, key :: key in ConnOf(states[i], id).subscribers)
  {
    hide ClosedEmpty, Agree;
    var s, key := states[i], events[i].key;
    EveryRunAgrees(states, events, i);
    assert Step(states[i], events[i], states[i + 1]);
    forall id | key in ConnOf(s, id).subscribers ensures Indexed(s, key) {
      AgreeAt(s, Entry(key, id));
      assert Entry(key, id) in s.subMap;
    }
    if Indexed(s, key) {
      var e :| e in s.subMap && e.key == key;
      AgreeAt(s, e);
    }
    if s.subMap != multiset{} {
      var e :| e in s.subMap;
      AgreeAt(s, e);
    }
    if id, other :| other in ConnOf(s, id).subscribers {
      AgreeAt(s, Entry(other, id));
      assert Entry(other, id) in s.subMap;
    }
  }

  /** The server with its index, as its callbacks change it. */
  class Server {
    var subMap: seq<Entry>
    var conns: map<nat, Conn>
    var delivered: seq<Delivery>
    var errors: nat

    function View(): State
      reads this
    {
      State(multiset(subMap), conns, multiset(delivered), errors)
    }

    constructor ()
      ensures View() == INITIAL
    {
      subMap, conns, delivered, errors := [], map[], [], 0;
    }

    /** Removes the first entry of the key that belongs to the connection. */
    method RemoveEntry(key: string, id: nat)
      modifies this`subMap
      ensures multiset(subMap) == old(multiset(subMap)) - multiset{Entry(key, id)}
    {
      var i := 0;
      while i < |subMap|
        invariant 0 <= i <= |subMap|
        invariant subMap == old(subMap) && Entry(key, id) !in subMap[..i]
      {
        if subMap[i].key == key && subMap[i].conn == id {
          RemoveAt(subMap, i);
          subMap := subMap[..i] + subMap[i + 1..];
          return;
        }
        i := i + 1;
      }
      assert subMap[..i] == subMap;
    }

    /** Removes one entry for each of the keys. */
    method OnSubscribersRemoved(keys: set<string>, id: nat)
      modifies this`subMap
      ensures multiset(subMap) == Without(old(multiset(subMap)), keys, id)
    {
      hide Without;
      WithoutNone(multiset(subMap), id);
      assert keys - keys == {};
      var left := keys;
      while left != {}
        invariant left <= keys
        invariant multiset(subMap) == Without(old(multiset(subMap)), keys - left, id)
        decreases |left|
      {
        var key :| key in left;
        RemoveEntry(key, id);
        WithoutOneMore(old(multiset(subMap)), keys, left, key, id);
        left := left - {key};
      }
      assert keys - {} == keys;
    }

    method AddConnection(id: nat)
      requires Enabled(View(), Accept(id))
      modifies this
      ensures Step(old(View()), Accept(id), View())
    {
      conns := conns[id := NEW_CONN];
    }

    method HandleSubscribe(id: nat, key: string)
      requires Enabled(View(), Subscribe(id, key))
      modifies this
      ensures Step(old(View()), Subscribe(id, key), View())
    {
      if key !in conns[id].subscribers {
        conns := conns[id := conns[id].(subscribers := conns[id].subscribers + {key})];
        subMap := subMap + [Entry(key, id)];
      }
    }

    method HandleUnsubscribe(id: nat, key: string)
      requires Enabled(View(), Unsubscribe(id, key))
      modifies this
      ensures Step(old(View()), Unsubscribe(id, key), View())
    {
      if key in conns[id].subscribers {
        conns := conns[id := conns[id].(subscribers := conns[id].subscribers - {key})];
        RemoveEntry(key, id);
      }
    }

    method ReleaseObj(id: nat)
      requires Enabled(View(), Release(id))
      modifies this
      ensures Step(old(View()), Release(id), View())
    {
      conns := conns[id := conns[id].(released := true, pendingCloses := conns[id].pendingCloses + 1)];
    }

    method CloseConnection(id: nat)
      requires Enabled(View(), Close(id))
      modifies this
      ensures Step(old(View()), Close(id), View())
    {
      var dropped := conns[id].subscribers;
      conns := conns[id := conns[id].(subscribers := {}, closed := true, pendingCloses := conns[id].pendingCloses - 1)];
      OnSubscribersRemoved(dropped, id);
    }

    method DestroyConnection(id: nat)
      requires Enabled(View(), Destroy(id))
      modifies this
      ensures Step(old(View()), Destroy(id), View())
    {
      conns := conns[id := conns[id].(alive := false)];
    }

    method ForwardMsg(key: string, data: string)
      modifies this
      ensures Step(old(View()), Publish(key, data), View())
    {
      hide Sent, Indexed, Copies;
      ghost var before := View();
      SentNone(before, key, data, delivered);
      var i, found := 0, false;
      while i < |subMap|
        invariant 0 <= i <= |subMap|
        invariant subMap == old(subMap) && conns == old(conns) && errors == old(errors)
        invariant found <==> exists k :: 0 <= k < i && subMap[k].key == key
        invariant Sent(before, subMap[..i], key, data, delivered)
      {
        SentMore(before, subMap, i, key, data, delivered);
        assert delivered + [] == delivered;
        if subMap[i].key == key {
          found := true;
          var id := subMap[i].conn;
          if id in conns && conns[id].alive && !conns[id].released {
            delivered := delivered + [Delivery(id, key, data)];
          }
        }
        i := i + 1;
      }
      assert subMap[..i] == subMap;
      SentAll(before, subMap, key, data, delivered);
      IndexedIs(before, subMap, key);
      if !found && |subMap| > 0 {
        errors := errors + 1;
      }
    }

    method Handle(e: Event)
      requires Enabled(View(), e)
      modifies this
      ensures Step(old(View()), e, View())
    {
      hide Step, Enabled;
      match e
      case Accept(id) => AddConnection(id);
      case Subscribe(id, key) => HandleSubscribe(id, key);
      case Unsubscribe(id, key) => HandleUnsubscribe(id, key);
      case Release(id) => ReleaseObj(id);
      case Close(id) => CloseConnection(id);
      case Destroy(id) => DestroyConnection(id);
      case Publish(key, data) => ForwardMsg(key, data);
    }
  }

  /** A server driven by any events, of which those that cannot happen are dropped, keeps its index right. */
  method Serve(events: seq<Event>) returns (server: Server)
    ensures fresh(server) && Agree(server.View()) && ClosedEmpty(server.View())
  {
    hide Step, Enabled, Agree, ClosedEmpty, INITIAL;
    server := new Server();
    InitialAgrees();
    for i := 0 to |events|
      invariant fresh(server) && Agree(server.View()) && ClosedEmpty(server.View())
    {
      var before := server.View();
      if Enabled(before, events[i]) {
        server.Handle(events[i]);
        StepAgrees(before, events[i], server.View());
        StepClosedEmpty(before, events[i], server.View());
      }
    }
  }

  // What the client's call asks of the server.

  /** The client forgets its handler and then sends the same kind of request as for a subscription. */
  function UnsubscribeRequest(id: nat, key: string): Event {
    Subscribe(id, key)
  }

  lemma {:induction false} UnsubscribeSubscribes(s: State, id: nat, key: string, t: State)
    requires Step(s, UnsubscribeRequest(id, key), t)
    ensures key in ConnOf(t, id).subscribers
  {
  }

  /** What ends a subscription on the server's side, or the life of its connection. */
  predicate Ends(e: Event, id: nat, key: string) {
    e == Unsubscribe(id, key) || e == Release(id) || e == Close(id) || e == Destroy(id)
  }

  ghost predicate Served(s: State, id: nat, key: string) {
    Live(s, id) && key in ConnOf(s, id).subscribers
  }

  lemma {:induction false} StepServes(s: State, e: Event, t: State, id: nat, key: string)
    requires Served(s, id, key) && Step(s, e, t) && !Ends(e, id, key)
    ensures Served(t, id, key)
  {
    hide Copies, Indexed, EntriesOf;
  }

  /** How an event changes a connection, without the index. */
  function After(c: Conn, e: Event): Conn {
    match e
    case Accept(_) => NEW_CONN
    case Subscribe(_, key) => c.(subscribers := c.subscribers + {key})
    case Unsubscribe(_, key) => c.(subscribers := c.subscribers - {key})
    case Release(_) => c.(released := true, pendingCloses := c.pendingCloses + 1)
    case Close(_) =>
      c.(subscribers := {}, closed := true, pendingCloses := if c.pendingCloses > 0 then c.pendingCloses - 1 else 0)
    case Destroy(_) => c.(alive := false)
    case Publish(_, _) => c
  }

  predicate Concerns(e: Event, id: nat) {
    !e.Publish? && e.conn == id
  }

  /** A step changes the connection it is about as its event says, and no other. */
  lemma {:induction false} StepConn(s: State, e: Event, t: State, id: nat)
    requires Step(s, e, t)
    ensures ConnOf(t, id) == if Concerns(e, id) then After(ConnOf(s, id), e) else ConnOf(s, id)
    ensures id in t.conns <==> id in s.conns || e == Accept(id)
  {
    hide Copies, Indexed, EntriesOf, Without;
    var c := ConnOf(s, id);
    if e.Subscribe? && e.key in c.subscribers {
      assert c.subscribers + {e.key} == c.subscribers;
    }
    if e.Unsubscribe? && e.key !in c.subscribers {
      assert c.subscribers - {e.key} == c.subscribers;
    }
  }

  lemma {:induction false} CanStep(s: State, e: Event, t: State)
    requires Step(s, e, t)
    ensures Enabled(s, e)
  {
    hide Published, Enabled;
  }

  /** A step serves the key to the connection exactly if it subscribes to it or leaves it served. */
  lemma {:induction false} ServedExactly(s: State, e: Event, t: State, id: nat, key: string)
    requires ClosedEmpty(s) && Step(s, e, t)
    ensures Served(t, id, key) <==> (e == Subscribe(id, key) && Live(s, id)) || (Served(s, id, key) && !Ends(e, id, key))
  {
    hide Step;
    StepConn(s, e, t, id);
    CanStep(s, e, t);
  }

  /** What the events alone say: subscribed while not released, and nothing since that ends it. */
  predicate Wanted(events: seq<Event>, id: nat, key: string) {
    if |events| == 0 then false else
      var before, e := events[..|events| - 1], events[|events| - 1];
      if e == Subscribe(id, key) then Release(id) !in before
      else Wanted(before, id, key) && !Ends(e, id, key)
  }

  lemma {:induction false} StepLive(s: State, e: Event, t: State, id: nat)
    requires Step(s, e, t)
    ensures ConnOf(t, id).released <==> ConnOf(s, id).released || e == Release(id)
  {
    hide Step;
    StepConn(s, e, t, id);
    CanStep(s, e, t);
  }

  lemma {:induction false} ReleasedByHistory(states: seq<State>, events: seq<Event>, i: nat, id: nat)
    requires Run(states, events) && i < |states|
    ensures ConnOf(states[i], id).released <==> Release(id) in events[..i]
  {
    hide Step;
    if i > 0 {
      ReleasedByHistory(states, events, i - 1, id);
      StepLive(states[i - 1], events[i - 1], states[i], id);
      assert events[..i] == events[..i - 1] + [events[i - 1]];
    }
  }

  lemma {:induction false} SubscriberLive(s: State, t: State, id: nat, key: string)
    requires Step(s, Subscribe(id, key), t)
    ensures Live(s, id) <==> !ConnOf(s, id).released
  {
  }

  /** In every run a connection is served exactly as the events say. */
  lemma {:induction false} ServedByHistory(states: seq<State>, events: seq<Event>, i: nat, id: nat, key: string)
    requires Run(states, events) && i < |states|
    ensures Served(states[i], id, key) <==> Wanted(events[..i], id, key)
  {
    hide Step, Served, Live, ClosedEmpty, Agree;
    if i == 0 {
      NobodyServed(id, key);
    } else {
      var s, e, t := states[i - 1], events[i - 1], states[i];
      ServedByHistory(states, events, i - 1, id, key);
      EveryRunAgrees(states, events, i - 1);
      assert Step(s, e, t);
      ServedExactly(s, e, t, id, key);
      ReleasedByHistory(states, events, i - 1, id);
      assert events[..i][..i - 1] == events[..i - 1] && events[..i][i - 1] == e;
      if e == Subscribe(id, key) {
        SubscriberLive(s, t, id, key);
        SubscribedLive(s, id, key);
      }
    }
  }

  lemma SubscribedLive(s: State, id: nat, key: string)
    ensures Served(s, id, key) ==> Live(s, id)
  {
  }

  lemma NobodyServed(id: nat, key: string)
    ensures !Served(INITIAL, id, key)
  {
  }

  /** A message reaches a connection, once, exactly if the events before it say that the connection is subscribed. */
  lemma {:induction false} DeliveredByHistory(states: seq<State>, events: seq<Event>, i: nat, d: Delivery)
    requires Run(states, events) && i < |events| && events[i].Publish?
    ensures states[i + 1].delivered[d] == states[i].delivered[d] +
              if d.key == events[i].key && d.data == events[i].data && Wanted(events[..i], d.conn, d.key) then 1 else 0
  {
    hide Step, Wanted;
    ForwardOnce(states, events, i, d);
    ServedByHistory(states, events, i, d.conn, d.key);
  }

  lemma {:induction false} UnwantedStays(events: seq<Event>, i: nat, j: nat, id: nat, key: string)
    requires i < j <= |events| && Ends(events[i], id, key)
    requires forall k :: i < k < j ==> events[k] != Subscribe(id, key)
    ensures !Wanted(events[..j], id, key)
    decreases j - i
  {
    assert events[..j][..j - 1] == events[..j - 1] && events[..j][j - 1] == events[j - 1];
    if i + 1 < j {
      UnwantedStays(events, i, j - 1, id, key);
    }
  }

  /** After the server has handled an unsubscribe, a release, a close or a destruction, no message of the key is
      delivered to the connection until it subscribes again. */
  lemma {:induction false} NotServedAfter(states: seq<State>, events: seq<Event>, i: nat, j: nat, id: nat, key: string)
    requires Run(states, events) && i < j < |events| && Ends(events[i], id, key)
    requires forall k :: i < k < j ==> events[k] != Subscribe(id, key)
    requires events[j].Publish? && events[j].key == key
    ensures var d := Delivery(id, key, events[j].data); states[j + 1].delivered[d] == states[j].delivered[d]
  {
    hide Step, Wanted;
    UnwantedStays(events, i, j, id, key);
    DeliveredByHistory(states, events, j, Delivery(id, key, events[j].data));
  }

  /** An unsubscribe handled by the server drops the key, and no other, from the connection's set. */
  lemma {:induction false} UnsubscribeDrops(s: State, id: nat, key: string, t: State)
    requires Step(s, Unsubscribe(id, key), t)
    ensures ConnOf(t, id).subscribers == ConnOf(s, id).subscribers - {key}
    ensures forall other :: other != id ==> ConnOf(t, other) == ConnOf(s, other)
  {
  }

  lemma {:induction false} RunServes(states: seq<State>, events: seq<Event>, i: nat, j: nat, id: nat, key: string)
    requires Run(states, events) && i <= j < |states| && Served(states[i], id, key)
    requires forall k :: i <= k < j ==> !Ends(events[k], id, key)
    ensures Served(states[j], id, key)
    decreases j - i
  {
    hide Step, Served;
    if i < j {
      StepServes(states[i], events[i], states[i + 1], id, key);
      RunServes(states, events, i + 1, j, id, key);
    }
  }

  /**
   * The server never learns that a client unsubscribed: until the connection goes away, every later message of the
   * key is still delivered to it, once.
   */
  lemma {:induction false} UnsubscribedStillServed(states: seq<State>, events: seq<Event>, i: nat, j: nat, id: nat,
                                                   key: string)
    requires Run(states, events) && i < j < |events|
    requires events[i] == UnsubscribeRequest(id, key) && Live(states[i + 1], id)
    requires forall k :: i < k < j ==> !Ends(events[k], id, key)
    requires events[j].Publish? && events[j].key == key
    ensures var d := Delivery(id, key, events[j].data);
            states[j + 1].delivered[d] == states[j].delivered[d] + 1
  {
    hide Step;
    UnsubscribeSubscribes(states[i], id, key, states[i + 1]);
    RunServes(states, events, i + 1, j, id, key);
    ForwardOnce(states, events, j, Delivery(id, key, events[j].data));
  }

  lemma {:induction false} RemoveAt(s: seq<Entry>, i: nat)
    requires i < |s|
    ensures multiset(s[..i] + s[i + 1..]) == multiset(s) - multiset{s[i]}
  {
    assert s == s[..i] + [s[i]] + s[i + 1..];
  }

  lemma {:induction false} WithoutNone(m: multiset<Entry>, id: nat)
    ensures Without(m, {}, id) == m
  {
    assert EntriesOf({}, id) == {};
  }

  lemma {:induction false} WithoutOneMore(m: multiset<Entry>, keys: set<string>, left: set<string>, key: string, id: nat)
    requires key in left && left <= keys
    ensures Without(m, keys - left, id) - multiset{Entry(key, id)} == Without(m, keys - (left - {key}), id)
  {
    assert EntriesOf(keys - (left - {key}), id) == EntriesOf(keys - left, id) + {Entry(key, id)};
  }

  function CopiesIn(s: State, entries: seq<Entry>, key: string, data: string, d: Delivery): nat {
    if d.key == key && d.data == data && Live(s, d.conn) then multiset(entries)[Entry(key, d.conn)] else 0
  }

  /** What has been delivered once some entries have been walked. */
  ghost predicate Sent(s: State, entries: seq<Entry>, key: string, data: string, delivered: seq<Delivery>) {
    forall d :: multiset(delivered)[d] == s.delivered[d] + CopiesIn(s, entries, key, data, d)
  }

  lemma {:induction false} SentMore(s: State, entries: seq<Entry>, i: nat, key: string, data: string, delivered: seq<Delivery>)
    requires i < |entries| && Sent(s, entries[..i], key, data, delivered)
    ensures var id := entries[i].conn;
            var more := if entries[i].key == key && Live(s, id) then [Delivery(id, key, data)] else [];
            Sent(s, entries[..i + 1], key, data, delivered + more)
  {
    hide Live;
    assert entries[..i + 1] == entries[..i] + [entries[i]];
  }

  lemma SentNone(s: State, key: string, data: string, delivered: seq<Delivery>)
    requires s.delivered == multiset(delivered)
    ensures Sent(s, [], key, data, delivered)
  {
  }

  lemma SentAll(s: State, entries: seq<Entry>, key: string, data: string, delivered: seq<Delivery>)
    requires s.subMap == multiset(entries) && Sent(s, entries, key, data, delivered)
    ensures forall d :: multiset(delivered)[d] == s.delivered[d] + Copies(s, key, data, d)
  {
  }

  lemma {:induction false} IndexedIs(s: State, entries: seq<Entry>, key: string)
    requires s.subMap == multiset(entries)
    ensures Indexed(s, key) <==> exists k :: 0 <= k < |entries| && entries[k].key == key
    ensures s.subMap == multiset{} <==> |entries| == 0
  {
    assert forall e :: e in s.subMap <==> e in entries;
    if k :| 0 <= k < |entries| && entries[k].key == key {
      assert entries[k] in s.subMap;
    }
    assert |entries| > 0 ==> entries[0] in s.subMap;
  }
}
