/** The gateway's WebSocket hub: one goroutine serving register, unregister and broadcast channels,
    and dropping any client whose send buffer is full. */
module Hub {
  import opened Models

  type ClientId = nat

  const SEND_CAP := 64
  const BROADCAST_CAP := 256

  datatype Channel = Channel(buffer: seq<JobEvent>, closed: bool)

  /** The hub and its clients' channels. `handled` and `taken` record what happened: the broadcasts
      served so far and the events each client's writer received. `crashed` is set by an operation
      that Go answers with a panic, a send on or close of a closed channel. */
  datatype State = State(
    clients: set<ClientId>,
    chans: map<ClientId, Channel>,
    queue: seq<JobEvent>,
    crashed: bool,
    handled: seq<JobEvent>,
    taken: map<ClientId, seq<JobEvent>>,
    joined: map<ClientId, nat>)

  const Start := State({}, map[], [], false, [], map[], map[])

  datatype Step =
    | Register(c: ClientId)
    | Unregister(c: ClientId)
    | Broadcast(e: JobEvent)
    | Deliver
    | Drain(c: ClientId)

  /** A non-blocking send that closes the channel instead of waiting. */
  function Offer(ch: Channel, e: JobEvent): Channel {
    if ch.closed then ch
    else if |ch.buffer| < SEND_CAP then ch.(buffer := ch.buffer + [e])
    else ch.(closed := true)
  }

  predicate Keeps(ch: Channel) {
    !ch.closed && |ch.buffer| < SEND_CAP
  }

  function Joined(s: State, c: ClientId): State {
    if c in s.chans then s.(clients := s.clients + {c})
    else s.(clients := s.clients + {c}, chans := s.chans[c := Channel([], false)],
            taken := s.taken[c := []], joined := s.joined[c := |s.handled|])
  }

  function Left(s: State, c: ClientId): State {
    if c !in s.clients || c !in s.chans then s
    else s.(clients := s.clients - {c}, chans := s.chans[c := s.chans[c].(closed := true)],
            crashed := s.crashed || s.chans[c].closed)
  }

  /** The clients in `done` have been offered e. */
  function OfferedTo(s: State, e: JobEvent, done: set<ClientId>): State {
    s.(clients := (set c | c in s.clients && !(c in done && c in s.chans && !Keeps(s.chans[c]))),
       chans := (map c | c in s.chans :: if c in done then Offer(s.chans[c], e) else s.chans[c]),
       crashed := s.crashed || ClosedAmong(s.chans, done))
  }

  predicate ClosedAmong(chans: map<ClientId, Channel>, cs: set<ClientId>) {
    exists c :: c in cs && c in chans && chans[c].closed
  }

  function Served(s: State): State
    requires s.queue != []
  {
    OfferedTo(s, s.queue[0], s.clients).(queue := s.queue[1..], handled := s.handled + [s.queue[0]])
  }

  function Drained(s: State, c: ClientId): State
    requires c in s.chans && c in s.taken && s.chans[c].buffer != []
  {
    var ch := s.chans[c];
    s.(chans := s.chans[c := ch.(buffer := ch.buffer[1..])], taken := s.taken[c := s.taken[c] + [ch.buffer[0]]])
  }

  /** What the goroutines may do. ServeWS registers a client it has just made; only a client that was
      registered is unregistered or drained; a full broadcast channel blocks the sender. */
  predicate Enabled(s: State, step: Step) {
    match step
    case Register(c) => c !in s.chans
    case Unregister(c) => c in s.chans
    case Broadcast(_) => |s.queue| < BROADCAST_CAP
    case Deliver => s.queue != []
    case Drain(c) => c in s.chans && c in s.taken && s.chans[c].buffer != []
  }

  function Next(s: State, step: Step): State {
    match step
    case Register(c) => Joined(s, c)
    case Unregister(c) => Left(s, c)
    case Broadcast(e) => s.(queue := s.queue + [e])
    case Deliver => if s.queue == [] then s else Served(s)
    case Drain(c) => if Enabled(s, step) then Drained(s, c) else s
  }

  function After(steps: seq<Step>): State {
    if steps == [] then Start else Next(After(steps[..|steps| - 1]), steps[|steps| - 1])
  }

  predicate EnabledAt(steps: seq<Step>, i: nat)
    requires i < |steps|
  {
    Enabled(After(steps[..i]), steps[i])
  }

  /** A run of the system: every step was possible when it was taken. */
  ghost predicate Feasible(steps: seq<Step>) {
    forall i :: 0 <= i < |steps| ==> EnabledAt(steps, i)
  }

  // ---------------------------------------------------------------- the hub object

  /** The hub's own state with the body of each `select` case of its loop. */
  class Server {
    var clients: set<ClientId>
    var chans: map<ClientId, Channel>
    var queue: seq<JobEvent>
    var crashed: bool
    ghost var handled: seq<JobEvent>
    ghost var taken: map<ClientId, seq<JobEvent>>
    ghost var joined: map<ClientId, nat>

    ghost function View(): State
      reads this
    {
      State(clients, chans, queue, crashed, handled, taken, joined)
    }

    constructor ()
      ensures View() == Start
    {
      clients, chans, queue, crashed := {}, map[], [], false;
      handled, taken, joined := [], map[], map[];
    }

    method OnRegister(c: ClientId)
      modifies this
      ensures View() == Next(old(View()), Register(c))
    {
      if c !in chans {
        chans := chans[c := Channel([], false)];
        taken, joined := taken[c := []], joined[c := |handled|];
      }
      clients := clients + {c};
    }

    method OnUnregister(c: ClientId)
      modifies this
      ensures View() == Next(old(View()), Unregister(c))
    {
      if c in clients && c in chans {
        clients := clients - {c};
        crashed := crashed || chans[c].closed;
        chans := chans[c := chans[c].(closed := true)];
      }
    }

    /** Offers an event to one client: the body of the broadcast loop. */
    method OfferTo(c: ClientId, event: JobEvent)
      requires c in clients && c in chans
      modifies this
      ensures View() == Visited(old(View()), c, event)
    {
      if chans[c].closed {
        crashed := true;
        clients := clients - {c};
      } else if |chans[c].buffer| < SEND_CAP {
        chans := chans[c := chans[c].(buffer := chans[c].buffer + [event])];
      } else {
        chans := chans[c := chans[c].(closed := true)];
        clients := clients - {c};
      }
    }

    /** One turn of the loop: one more client is served. */
    method OfferToNext(c: ClientId, event: JobEvent, ghost s: State, ghost done: set<ClientId>)
      requires View() == OfferedTo(s, event, done) && c in s.clients && c in s.chans && c !in done
      modifies this
      ensures View() == OfferedTo(s, event, done + {c})
    {
      VisitExtends(s, event, done, c);
      OfferTo(c, event);
    }

    /** Offers an event to every client, visited in an arbitrary order. */
    method OfferToAll(event: JobEvent)
      requires clients <= chans.Keys
      modifies this
      ensures View() == OfferedTo(old(View()), event, old(clients))
    {
      ghost var s := View();
      ghost var done: set<ClientId> := {};
      var todo := clients;
      OfferedToNone(s, event);
      while todo != {}
        invariant todo !! done && todo + done == s.clients
        invariant View() == OfferedTo(s, event, done)
        decreases |todo|
      {
        var c :| c in todo;
        OfferToNext(c, event, s, done);
        todo, done := todo - {c}, done + {c};
      }
      assert done == s.clients;
    }

    /** Serves one broadcast. */
    method OnBroadcast()
      requires queue != []
      requires clients <= chans.Keys
      modifies this
      ensures View() == Next(old(View()), Deliver)
    {
      var event := queue[0];
      ghost var s := View();
      OfferToAll(event);
      queue := queue[1..];
      handled := handled + [event];
      assert View() == Served(s);
    }
  }

  function Visited(s: State, c: ClientId, e: JobEvent): State
    requires c in s.clients && c in s.chans
  {
    s.(clients := if Keeps(s.chans[c]) then s.clients else s.clients - {c},
       chans := s.chans[c := Offer(s.chans[c], e)],
       crashed := s.crashed || s.chans[c].closed)
  }

  lemma OfferedToNone(s: State, e: JobEvent)
    ensures OfferedTo(s, e, {}) == s
  {
    assert OfferedTo(s, e, {}).chans == s.chans;
    assert OfferedTo(s, e, {}).clients == s.clients;
  }

  lemma VisitExtends(s: State, e: JobEvent, done: set<ClientId>, c: ClientId)
    requires c in s.clients && c in s.chans && c !in done
    ensures var r := OfferedTo(s, e, done);
            && c in r.clients && c in r.chans
            && Visited(r, c, e) == OfferedTo(s, e, done + {c})
  {
    var r, r' := OfferedTo(s, e, done), OfferedTo(s, e, done + {c});
    assert Visited(r, c, e).clients == r'.clients;
    assert Visited(r, c, e).chans == r'.chans;
    assert ClosedAmong(s.chans, done + {c}) == (ClosedAmong(s.chans, done) || s.chans[c].closed);
  }

  // ---------------------------------------------------------------- safety of every run

  /** Everything the channel of c ever accepted. */
  function Accepted(s: State, c: ClientId): seq<JobEvent>
    requires c in s.chans && c in s.taken
  {
    s.taken[c] + s.chans[c].buffer
  }

  ghost predicate ClientOk(s: State, c: ClientId)
    requires c in s.chans && c in s.taken && c in s.joined
  {
    var got, j := Accepted(s, c), s.joined[c];
    && (c in s.clients <==> !s.chans[c].closed)
    && |s.chans[c].buffer| <= SEND_CAP
    && j + |got| <= |s.handled|
    && got == s.handled[j..j + |got|]
    && (c in s.clients ==> j + |got| == |s.handled|)
  }

  ghost predicate Inv(s: State) {
    && !s.crashed
    && s.clients <= s.chans.Keys
    && s.taken.Keys == s.chans.Keys && s.joined.Keys == s.chans.Keys
    && (forall c :: c in s.chans ==> ClientOk(s, c))
  }

  lemma ServedClientOk(s: State, c: ClientId)
    requires Inv(s) && s.queue != [] && c in s.chans
    ensures ClientOk(Served(s), c)
  {
    var s', e := Served(s), s.queue[0];
    var got, got', j := Accepted(s, c), Accepted(s', c), s.joined[c];
    if c in s.clients && |s.chans[c].buffer| < SEND_CAP {
      assert got' == got + [e];
      assert s'.handled[j..j + |got'|] == s.handled[j..] + [e];
      assert s.handled[j..] == s.handled[j..j + |got|];
    } else {
      assert got' == got;
      assert s'.handled[j..j + |got|] == s.handled[j..j + |got|];
    }
  }

  /** A client is judged by its own channel, its history and the broadcasts served. */
  lemma ClientOkFrame(s: State, s': State, c: ClientId)
    requires c in s.chans && c in s.taken && c in s.joined && ClientOk(s, c)
    requires c in s'.chans && c in s'.taken && c in s'.joined
    requires Accepted(s', c) == Accepted(s, c) && |s'.chans[c].buffer| <= |s.chans[c].buffer|
    requires s'.joined[c] == s.joined[c] && s'.handled == s.handled
    requires c in s'.clients <==> !s'.chans[c].closed
    requires c in s'.clients ==> c in s.clients
    ensures ClientOk(s', c)
  {
  }

  lemma InvKeptByRegister(s: State, c: ClientId)
    requires Inv(s) && Enabled(s, Register(c))
    ensures Inv(Joined(s, c))
  {
    var s' := Joined(s, c);
    assert s.handled[|s.handled|..|s.handled|] == [];
    assert ClientOk(s', c);
    forall d | d in s'.chans && d != c
      ensures ClientOk(s', d)
    {
      ClientOkFrame(s, s', d);
    }
  }

  lemma InvKeptByUnregister(s: State, c: ClientId)
    requires Inv(s) && c in s.chans
    ensures Inv(Left(s, c))
  {
    assert ClientOk(s, c);
    forall d | d in s.chans
      ensures ClientOk(Left(s, c), d)
    {
      ClientOkFrame(s, Left(s, c), d);
    }
  }

  lemma InvKeptByDrain(s: State, c: ClientId)
    requires Inv(s) && Enabled(s, Drain(c))
    ensures Inv(Drained(s, c))
  {
    var s', b := Drained(s, c), s.chans[c].buffer;
    assert ClientOk(s, c);
    assert b == [b[0]] + b[1..];
    assert Accepted(s', c) == Accepted(s, c);
    forall d | d in s.chans
      ensures ClientOk(s', d)
    {
      ClientOkFrame(s, s', d);
    }
  }

  lemma InvKeptByBroadcast(s: State, e: JobEvent)
    requires Inv(s)
    ensures Inv(Next(s, Broadcast(e)))
  {
    forall d | d in s.chans
      ensures ClientOk(Next(s, Broadcast(e)), d)
    {
      ClientOkFrame(s, Next(s, Broadcast(e)), d);
    }
  }

  lemma InvKept(s: State, step: Step)
    requires Inv(s) && Enabled(s, step)
    ensures Inv(Next(s, step))
  {
    match step
    case Register(c) => InvKeptByRegister(s, c);
    case Unregister(c) => InvKeptByUnregister(s, c);
    case Broadcast(e) => InvKeptByBroadcast(s, e);
    case Drain(c) => InvKeptByDrain(s, c);
    case Deliver =>
      forall d | d in s.chans
        ensures ClientOk(Served(s), d)
      {
        ServedClientOk(s, d);
      }
      assert forall c :: c in s.clients ==> ClientOk(s, c);
  }

  /** In every run: no send on or close of a closed channel; a client is in `clients` exactly when it
      was registered and its channel is open; each channel accepted a gap-free segment. */
  lemma {:induction false} HubIsSafe(steps: seq<Step>)
    requires Feasible(steps)
    ensures Inv(After(steps))
  {
    if steps != [] {
      var n := |steps| - 1;
      FeasiblePrefix(steps, n);
      HubIsSafe(steps[..n]);
      InvKept(After(steps[..n]), steps[n]);
    }
  }

  /** A connected client is dropped exactly when it is unregistered, or when a broadcast finds its
      buffer full. */
  lemma DroppedIff(s: State, step: Step, c: ClientId)
    requires Inv(s) && Enabled(s, step) && c in s.clients
    ensures c !in Next(s, step).clients <==>
        step == Unregister(c) || (step.Deliver? && |s.chans[c].buffer| == 64)
  {
  }

  /** The registration discipline is needed: re-registering a client whose channel is closed crashes
      the hub at the next broadcast. */
  lemma ReRegisteringAClosedClientCrashes(s: State, c: ClientId)
    requires c in s.chans && s.chans[c].closed && s.queue != []
    ensures Next(Next(s, Register(c)), Deliver).crashed
  {
  }

  /** So does unregistering it: its channel would be closed twice. */
  lemma UnregisteringAClosedClientCrashes(s: State, c: ClientId)
    requires c in s.chans && s.chans[c].closed
    ensures Next(Next(s, Register(c)), Unregister(c)).crashed
  {
  }

  /** A sender waits exactly while 256 broadcasts are pending, and never are there more. */
  lemma {:induction false} BroadcastBlocksIff(steps: seq<Step>, e: JobEvent)
    requires Feasible(steps)
    ensures |After(steps).queue| <= 256
    ensures Enabled(After(steps), Broadcast(e)) <==> |After(steps).queue| != 256
  {
    if steps != [] {
      var n := |steps| - 1;
      FeasiblePrefix(steps, n);
      BroadcastBlocksIff(steps[..n], e);
      HandledStep(After(steps[..n]), steps[n]);
    }
  }

  // ---------------------------------------------------------------- nothing accepted is lost

  /** What the channel of c has accepted in s it still has in s'; and once the client is gone it accepts no more. */
  ghost predicate Retains(s: State, s': State, c: ClientId) {
    && c in s.chans && c in s.taken && c in s'.chans && c in s'.taken
    && Accepted(s, c) <= Accepted(s', c)
    && (c !in s.clients ==> c !in s'.clients && Accepted(s', c) == Accepted(s, c))
  }

  lemma AcceptedByDelivery(s: State, c: ClientId)
    requires Inv(s) && s.queue != [] && c in s.chans
    ensures var s' := Served(s);
            && c in s'.chans && c in s'.taken && (c !in s.clients ==> c !in s'.clients)
            && Accepted(s', c) == Accepted(s, c) + if c in s'.clients then [s.queue[0]] else []
  {
    assert ClientOk(s, c);
    assert c in s.clients && |s.chans[c].buffer| < SEND_CAP <==> c in Served(s).clients;
  }

  lemma AcceptedByDrain(s: State, d: ClientId, c: ClientId)
    requires Inv(s) && Enabled(s, Drain(d)) && c in s.chans
    ensures var s' := Drained(s, d);
            c in s'.chans && c in s'.taken && s'.clients == s.clients && Accepted(s', c) == Accepted(s, c)
  {
    var b := s.chans[d].buffer;
    assert b == [b[0]] + b[1..];
  }

  lemma AcceptedKept(s: State, step: Step, c: ClientId)
    requires Inv(s) && Enabled(s, step) && c in s.chans
    ensures Retains(s, Next(s, step), c)
    ensures c !in Next(s, step).clients ==> Accepted(Next(s, step), c) == Accepted(s, c)
  {
    match step
    case Deliver =>
      AcceptedByDelivery(s, c);
    case Drain(d) =>
      AcceptedByDrain(s, d, c);
    case _ =>
  }

  lemma KeepsOn(s: State, t: State, u: State, c: ClientId)
    requires Retains(s, t, c) && Retains(t, u, c)
    ensures Retains(s, u, c)
  {
  }

  /** Over a run, what a channel had accepted at any point it still has at the end, for its writer to receive. */
  lemma {:induction false} AcceptedGrows(steps: seq<Step>, i: nat, c: ClientId)
    requires Feasible(steps) && i <= |steps| && c in After(steps[..i]).chans
    ensures Retains(After(steps[..i]), After(steps), c)
    decreases |steps|
  {
    if i == |steps| {
      assert steps[..i] == steps;
      HubIsSafe(steps);
    } else {
      var n := |steps| - 1;
      assert steps[..n][..i] == steps[..i];
      FeasiblePrefix(steps, n);
      AcceptedGrows(steps[..n], i, c);
      HubIsSafe(steps[..n]);
      AcceptedKept(After(steps[..n]), steps[n], c);
      KeepsOn(After(steps[..i]), After(steps[..n]), After(steps), c);
    }
  }

  // ---------------------------------------------------------------- in terms of the run alone

  /** The events handed to Broadcast, in order. */
  function Published(steps: seq<Step>): seq<JobEvent> {
    if steps == [] then []
    else
      var last := steps[|steps| - 1];
      Published(steps[..|steps| - 1]) + if last.Broadcast? then [last.e] else []
  }

  /** How many broadcasts the hub has served. */
  function Deliveries(steps: seq<Step>): nat {
    if steps == [] then 0
    else Deliveries(steps[..|steps| - 1]) + if steps[|steps| - 1].Deliver? then 1 else 0
  }

  lemma HandledStep(s: State, step: Step)
    requires Enabled(s, step)
    ensures var s' := Next(s, step);
            && s'.handled + s'.queue == s.handled + s.queue + (if step.Broadcast? then [step.e] else [])
            && |s'.handled| == |s.handled| + if step.Deliver? then 1 else 0
  {
  }

  lemma FeasiblePrefix(steps: seq<Step>, n: nat)
    requires Feasible(steps) && n <= |steps|
    ensures Feasible(steps[..n])
    ensures n < |steps| ==> Enabled(After(steps[..n]), steps[n])
  {
    forall i | 0 <= i < n
      ensures EnabledAt(steps[..n], i)
    {
      assert steps[..n][..i] == steps[..i];
      assert EnabledAt(steps, i);
    }
    if n < |steps| {
      assert EnabledAt(steps, n);
    }
  }

  lemma {:induction false} HandledIsPublishedPrefix(steps: seq<Step>)
    requires Feasible(steps)
    ensures var s := After(steps); s.handled + s.queue == Published(steps) && |s.handled| == Deliveries(steps)
  {
    if steps != [] {
      var n := |steps| - 1;
      FeasiblePrefix(steps, n);
      HandledIsPublishedPrefix(steps[..n]);
      HandledStep(After(steps[..n]), steps[n]);
    }
  }

  lemma JoinedStays(s: State, step: Step, c: ClientId)
    requires Enabled(s, step) && c in s.chans && c in s.joined
    ensures var s' := Next(s, step); c in s'.chans && c in s'.joined && s'.joined[c] == s.joined[c]
  {
  }

  lemma {:induction false} JoinedAtRegistration(steps: seq<Step>, i: nat, c: ClientId)
    requires Feasible(steps) && i < |steps| && steps[i] == Register(c)
    ensures var s := After(steps); c in s.chans && c in s.joined && s.joined[c] == Deliveries(steps[..i])
  {
    var n := |steps| - 1;
    var init := steps[..n];
    FeasiblePrefix(steps, n);
    if i == n {
      HandledIsPublishedPrefix(init);
    } else {
      assert init[..i] == steps[..i];
      JoinedAtRegistration(init, i, c);
      JoinedStays(After(init), steps[n], c);
    }
  }

  /** A client registered at step i accepted exactly a contiguous segment of the published events,
      starting with the first one served after its registration, and all of them while it stays. */
  lemma ClientSeesContiguousSegment(steps: seq<Step>, i: nat, c: ClientId)
    requires Feasible(steps) && i < |steps| && steps[i] == Register(c)
    ensures var s := After(steps);
            && c in s.chans && c in s.taken
            && (var j, got := Deliveries(steps[..i]), Accepted(s, c);
                && j + |got| <= Deliveries(steps) <= |Published(steps)|
                && got == Published(steps)[j..j + |got|]
                && (c in s.clients ==> j + |got| == Deliveries(steps)))
  {
    HubIsSafe(steps);
    JoinedAtRegistration(steps, i, c);
    HandledIsPublishedPrefix(steps);
    var s := After(steps);
    assert ClientOk(s, c);
    var j, n := s.joined[c], |Accepted(s, c)|;
    assert (s.handled + s.queue)[j..j + n] == s.handled[j..j + n];
  }

  /** A client registered at step i and gone at step k, unregistered or dropped, accepted exactly the events served
      in between, up to the last one before step k, and keeps them for good. */
  lemma GoneClientKeepsItsSegment(steps: seq<Step>, i: nat, k: nat, c: ClientId, had: State, gone: State, end: State)
    requires Feasible(steps) && i < k < |steps| && steps[i] == Register(c)
    requires had == After(steps[..k]) && gone == After(steps[..k + 1]) && end == After(steps)
    requires c in had.clients && c !in gone.clients
    ensures c in end.chans && c in end.taken
    ensures Deliveries(steps[..i]) <= Deliveries(steps[..k]) <= |Published(steps)|
    ensures Accepted(end, c) == Published(steps)[Deliveries(steps[..i])..Deliveries(steps[..k])]
  {
    SegmentWhenGone(steps, i, k, c);
    AcceptedGrows(steps, k + 1, c);
    PublishedGrows(steps, k);
    SegmentStays(gone, end, c, Published(steps[..k]), Published(steps), Deliveries(steps[..i]), Deliveries(steps[..k]));
  }

  lemma SegmentStays(s: State, t: State, c: ClientId, p: seq<JobEvent>, q: seq<JobEvent>, j: nat, d: nat)
    requires Retains(s, t, c) && c !in s.clients && p <= q && j <= d <= |p| && Accepted(s, c) == p[j..d]
    ensures c in t.chans && c in t.taken && d <= |q| && Accepted(t, c) == q[j..d]
  {
    PrefixSlice(p, q, j, d);
  }

  lemma SegmentWhenGone(steps: seq<Step>, i: nat, k: nat, c: ClientId)
    requires Feasible(steps) && i < k < |steps| && steps[i] == Register(c)
    requires c in After(steps[..k]).clients && c !in After(steps[..k + 1]).clients
    ensures c in After(steps[..k + 1]).chans && c in After(steps[..k + 1]).taken
    ensures Deliveries(steps[..i]) <= Deliveries(steps[..k]) <= |Published(steps[..k])|
    ensures Accepted(After(steps[..k + 1]), c) == Published(steps[..k])[Deliveries(steps[..i])..Deliveries(steps[..k])]
  {
    FeasiblePrefix(steps, k);
    assert steps[..k][..i] == steps[..i] && steps[..k + 1][..k] == steps[..k];
    ClientSeesContiguousSegment(steps[..k], i, c);
    HubIsSafe(steps[..k]);
    AcceptedKept(After(steps[..k]), steps[k], c);
  }

  lemma PrefixSlice(a: seq<JobEvent>, b: seq<JobEvent>, i: nat, j: nat)
    requires a <= b && i <= j <= |a|
    ensures a[i..j] == b[i..j]
  {
  }

  lemma {:induction false} PublishedGrows(steps: seq<Step>, k: nat)
    requires k <= |steps|
    ensures Published(steps[..k]) <= Published(steps)
    decreases |steps|
  {
    if k < |steps| {
      var n := |steps| - 1;
      assert steps[..n][..k] == steps[..k];
      PublishedGrows(steps[..n], k);
    } else {
      assert steps[..k] == steps;
    }
  }
}
