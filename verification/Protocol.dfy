/**
 The server-to-server channel protocol as a step machine.

 A `Server` is what one process knows; the `On..` functions say what each
 handler makes of it (the classes in `HandlerCode` are proved to compute them).
 A `Cluster` is all servers, the datagrams in flight and the texts sent to
 clients so far. Every handler runs under the server's lock, so a step is one
 whole handler call; datagrams are delivered in any order.
*/
module Protocol {
  import opened Addresses
  import opened Graphs

  datatype Client = Client(name: string, addr: Addr)

  // `seen` is the channel's set of message ids already handled.
  datatype Channel = Channel(users: set<Client>, servers: set<Addr>, seen: set<nat>)

  datatype Server = Server(users: set<Client>, neighbours: set<Addr>, channels: map<string, Channel>)

  datatype Body = Join | Leave | Say(uid: nat, who: string, text: string)

  datatype Msg = Msg(src: Addr, dst: Addr, chan: string, body: Body)

  // A text delivered to a client by the server it is logged in to.
  datatype Text = Text(server: Addr, client: Client, chan: string, who: string, text: string)

  // What a handler leaves behind: the new state and what it sent.
  datatype Effect = Effect(server: Server, msgs: set<Msg>, texts: set<Text>)

  // ------------------------------------------------------------- handlers

  predicate Prunable(ch: Channel) {
    ch.users == {} && |ch.servers| <= 1
  }

  function Kept(channels: map<string, Channel>): map<string, Channel> {
    map c | c in channels && !Prunable(channels[c]) :: channels[c]
  }

  function LeaveMsgs(me: Addr, channels: map<string, Channel>): set<Msg> {
    set c, t | c in channels && Prunable(channels[c]) && t in channels[c].servers :: Msg(me, t, c, Leave)
  }

  // The pruning procedure runs over every channel of the server.
  function Pruned(me: Addr, sv: Server): Effect {
    Effect(sv.(channels := Kept(sv.channels)), LeaveMsgs(me, sv.channels), {})
  }

  function Broadcast(me: Addr, to: set<Addr>, chan: string, body: Body): set<Msg> {
    set t | t in to :: Msg(me, t, chan, body)
  }

  function Texts(me: Addr, to: set<Client>, chan: string, who: string, text: string): set<Text> {
    set u | u in to :: Text(me, u, chan, who, text)
  }

  predicate LoggedIn(sv: Server, a: Addr) {
    exists u :: u in sv.users && u.addr == a
  }

  ghost function UserAt(sv: Server, a: Addr): (u: Client)
    requires LoggedIn(sv, a)
    ensures u in sv.users && u.addr == a
  {
    var u :| u in sv.users && u.addr == a;
    u
  }

  // Adding a user evicts the holders of its name and of its address.
  function Admit(users: set<Client>, u: Client): set<Client> {
    (set x | x in users && x.name != u.name && x.addr != u.addr) + {u}
  }

  function OnLogin(sv: Server, u: Client): Effect {
    Effect(sv.(users := Admit(sv.users, u)), {}, {})
  }

  function Forget(channels: map<string, Channel>, gone: set<Client>): map<string, Channel> {
    map c | c in channels :: channels[c].(users := channels[c].users - gone)
  }

  // A user set is told to drop a user by pointer, which also erases the user's
  // name and address from its maps: they must not be those of another member.
  predicate Removable(users: set<Client>, u: Client) {
    u in users || forall x :: x in users ==> x.name != u.name && x.addr != u.addr
  }

  predicate RemovableEverywhere(channels: map<string, Channel>, u: Client) {
    forall c :: c in channels ==> Removable(channels[c].users, u)
  }

  ghost function OnLogout(me: Addr, sv: Server, a: Addr): Effect {
    if LoggedIn(sv, a) then
      var u := UserAt(sv, a);
      Pruned(me, sv.(users := sv.users - {u}, channels := Forget(sv.channels, {u})))
    else
      Pruned(me, sv)
  }

  // The join is broadcast to every neighbour, logged in or not.
  ghost function OnClientJoin(me: Addr, sv: Server, a: Addr, chan: string): Effect {
    var sv' :=
      if LoggedIn(sv, a) then
        var ch := if chan in sv.channels then sv.channels[chan] else Channel({}, {}, {});
        sv.(channels := sv.channels[chan := ch.(users := Admit(ch.users, UserAt(sv, a)))])
      else
        sv;
    Effect(sv', Broadcast(me, sv.neighbours, chan, Join), {})
  }

  ghost function OnClientLeave(me: Addr, sv: Server, a: Addr, chan: string): Effect
    requires LoggedIn(sv, a)
  {
    if chan in sv.channels then
      var ch := sv.channels[chan];
      Pruned(me, sv.(channels := sv.channels[chan := ch.(users := ch.users - {UserAt(sv, a)})]))
    else
      Pruned(me, sv)
  }

  ghost function OnClientSay(me: Addr, sv: Server, a: Addr, chan: string, uid: nat, text: string): Effect
    requires LoggedIn(sv, a) && chan in sv.channels
  {
    var who := UserAt(sv, a).name;
    var ch := sv.channels[chan];
    Effect(sv, Broadcast(me, ch.servers, chan, Say(uid, who, text)), Texts(me, ch.users, chan, who, text))
  }

  // A server passes a join on only when it had to create the channel.
  function OnJoin(me: Addr, sv: Server, from: Addr, chan: string): Effect {
    if chan in sv.channels then
      var ch := sv.channels[chan];
      Effect(sv.(channels := sv.channels[chan := ch.(servers := ch.servers + {from})]), {}, {})
    else
      Effect(sv.(channels := sv.channels[chan := Channel({}, {from}, {})]),
             Broadcast(me, sv.neighbours, chan, Join), {})
  }

  function OnLeave(sv: Server, from: Addr, chan: string): Effect {
    if chan in sv.channels then
      var ch := sv.channels[chan];
      Effect(sv.(channels := sv.channels[chan := ch.(servers := ch.servers - {from})]), {}, {})
    else
      Effect(sv, {}, {})
  }

  function OnSay(me: Addr, sv: Server, from: Addr, chan: string, say: Body): Effect
    requires say.Say? && chan in sv.channels
  {
    var ch := sv.channels[chan];
    if say.uid in ch.seen then
      Effect(sv, {Msg(me, from, chan, Leave)}, {})
    else
      var pruned := Pruned(me, sv);
      Effect(pruned.server,
             Broadcast(me, ch.servers - {from}, chan, say) + pruned.msgs,
             Texts(me, ch.users, chan, say.who, say.text))
  }

  // The periodic join sender: every listed server of every channel.
  function OnHeartbeat(me: Addr, sv: Server): Effect {
    Effect(sv, set c, t | c in sv.channels && t in sv.channels[c].servers :: Msg(me, t, c, Join), {})
  }

  // Users not heard from for too long are taken out without any pruning.
  function OnUserTimeout(sv: Server, idle: set<Client>): Effect {
    Effect(sv.(users := sv.users - idle, channels := Forget(sv.channels, idle)), {}, {})
  }

  function Silenced(ch: Channel, c: string, silent: map<string, set<Addr>>): Channel {
    if c in silent then ch.(servers := ch.servers - silent[c]) else ch
  }

  // Servers whose joins stopped coming are unlisted, channel by channel.
  function OnServerTimeout(sv: Server, silent: map<string, set<Addr>>): Effect {
    Effect(sv.(channels := map c | c in sv.channels :: Silenced(sv.channels[c], c, silent)), {}, {})
  }

  // --------------------------------------------------------------- cluster

  datatype Cluster = Cluster(servers: map<Addr, Server>, net: multiset<Msg>, texts: multiset<Text>)

  datatype Step =
    | Login(at: Addr, user: Client)
    | Logout(at: Addr, addr: Addr)
    | ClientJoin(at: Addr, addr: Addr, chan: string)
    | ClientLeave(at: Addr, addr: Addr, chan: string)
    | ClientSay(at: Addr, addr: Addr, chan: string, uid: nat, text: string)
    | Heartbeat(at: Addr)
    | UserTimeout(at: Addr, idle: set<Client>)
    | ServerTimeout(at: Addr, silent: map<string, set<Addr>>)
    | Deliver(msg: Msg)

  function Site(step: Step): Addr {
    if step.Deliver? then step.msg.dst else step.at
  }

  ghost predicate Enabled(c: Cluster, step: Step) {
    Site(step) in c.servers && (step.Deliver? ==> step.msg in c.net)
  }

  // The handler does not follow a null pointer: a say needs its channel, a join
  // or leave needs a known sender, a client that says or leaves is logged in.
  // And it does not erase another user's keys.
  ghost predicate SafeAt(sv: Server, step: Step) {
    match step
    case Deliver(Msg(src, _, chan, body)) => if body.Say? then chan in sv.channels else src in sv.neighbours
    case ClientSay(_, a, chan, _, _) => LoggedIn(sv, a) && chan in sv.channels
    case ClientLeave(_, a, chan) =>
      LoggedIn(sv, a) && (chan in sv.channels ==> Removable(sv.channels[chan].users, UserAt(sv, a)))
    case Logout(_, a) => LoggedIn(sv, a) ==> RemovableEverywhere(sv.channels, UserAt(sv, a))
    case UserTimeout(_, idle) =>
      idle <= sv.users && forall u :: u in idle ==> RemovableEverywhere(sv.channels, u)
    case _ => true
  }

  ghost function EffectAt(me: Addr, sv: Server, step: Step): Effect
    requires SafeAt(sv, step)
  {
    match step
    case Login(_, u) => OnLogin(sv, u)
    case Logout(_, a) => OnLogout(me, sv, a)
    case ClientJoin(_, a, chan) => OnClientJoin(me, sv, a, chan)
    case ClientLeave(_, a, chan) => OnClientLeave(me, sv, a, chan)
    case ClientSay(_, a, chan, uid, text) => OnClientSay(me, sv, a, chan, uid, text)
    case Heartbeat(_) => OnHeartbeat(me, sv)
    case UserTimeout(_, idle) => OnUserTimeout(sv, idle)
    case ServerTimeout(_, silent) => OnServerTimeout(sv, silent)
    case Deliver(m) =>
      match m.body
      case Join => OnJoin(me, sv, m.src, m.chan)
      case Leave => OnLeave(sv, m.src, m.chan)
      case Say(_, _, _) => OnSay(me, sv, m.src, m.chan, m.body)
  }

  ghost predicate Allowed(c: Cluster, step: Step) {
    Enabled(c, step) && SafeAt(c.servers[Site(step)], step)
  }

  ghost function EffectOf(c: Cluster, step: Step): Effect
    requires Allowed(c, step)
  {
    EffectAt(Site(step), c.servers[Site(step)], step)
  }

  ghost function After(c: Cluster, step: Step): Cluster
    requires Allowed(c, step)
  {
    var e := EffectOf(c, step);
    var net := if step.Deliver? then c.net - multiset{step.msg} else c.net;
    Cluster(c.servers[Site(step) := e.server], net + multiset(e.msgs), c.texts + multiset(e.texts))
  }

  // ------------------------------------------------------------------ runs

  ghost predicate Run(c: Cluster, steps: seq<Step>)
    decreases |steps|, 0
  {
    steps == [] ||
    (var n := |steps| - 1;
     Run(c, steps[..n]) && Allowed(End(c, steps[..n]), steps[n]))
  }

  ghost function End(c: Cluster, steps: seq<Step>): Cluster
    requires Run(c, steps)
    decreases |steps|, 1
  {
    if steps == [] then c
    else
      var n := |steps| - 1;
      After(End(c, steps[..n]), steps[n])
  }

  ghost predicate Drained(c: Cluster) {
    c.net == multiset{}
  }

  ghost predicate AllDeliveries(steps: seq<Step>) {
    forall i :: 0 <= i < |steps| ==> steps[i].Deliver?
  }

  // ------------------------------------------------------------ basic facts

  predicate Holds(c: Cluster, s: Addr, chan: string) {
    s in c.servers && chan in c.servers[s].channels
  }

  // The subscription graph of a channel.
  function Listing(c: Cluster, chan: string): Graph {
    map s | s in c.servers && chan in c.servers[s].channels :: c.servers[s].channels[chan].servers
  }

  // The physical adjacency.
  function Topology(c: Cluster): Graph {
    map s | s in c.servers :: c.servers[s].neighbours
  }

  ghost predicate WellFormedServer(c: Cluster, s: Addr)
    requires s in c.servers
  {
    forall chan :: chan in c.servers[s].channels ==>
      c.servers[s].channels[chan].seen == {} &&
      c.servers[s].channels[chan].servers <= c.servers[s].neighbours
  }

  ghost predicate WellFormed(c: Cluster) {
    && Symmetric(Topology(c)) && Loopless(Topology(c))
    && (forall s {:trigger WellFormedServer(c, s)} :: s in c.servers ==> WellFormedServer(c, s))
    && (forall m :: m in c.net ==> Edge(Topology(c), m.src, m.dst))
  }

  ghost predicate Local(me: Addr, sv: Server, e: Effect) {
    && e.server.neighbours == sv.neighbours
    && (forall m :: m in e.msgs ==> m.src == me && m.dst in sv.neighbours)
    && (forall chan :: chan in e.server.channels ==>
          e.server.channels[chan].seen == {} && e.server.channels[chan].servers <= sv.neighbours)
  }

  lemma EffectIsLocal(c: Cluster, step: Step)
    requires WellFormed(c) && Allowed(c, step)
    ensures Local(Site(step), c.servers[Site(step)], EffectOf(c, step))
  {
    var n := Site(step);
    assert WellFormedServer(c, n);
    if step.Deliver? {
      assert Edge(Topology(c), step.msg.src, n);
      assert Edge(Topology(c), n, step.msg.src);
    }
  }

  // Lists stay within the adjacency, ids are never recorded, and datagrams only
  // travel between neighbours, whatever happens.
  lemma StepKeepsWellFormed(c: Cluster, step: Step)
    requires WellFormed(c) && Allowed(c, step)
    ensures WellFormed(After(c, step)) && Topology(After(c, step)) == Topology(c)
  {
    var n := Site(step);
    var e := EffectOf(c, step);
    EffectIsLocal(c, step);
    var net := if step.Deliver? then c.net - multiset{step.msg} else c.net;
    PostedKeepsWellFormed(c, n, e, net, After(c, step));
  }

  lemma PostedKeepsWellFormed(c: Cluster, n: Addr, e: Effect, net: multiset<Msg>, c': Cluster)
    requires WellFormed(c) && n in c.servers && Local(n, c.servers[n], e) && net <= c.net
    requires c' == Cluster(c.servers[n := e.server], net + multiset(e.msgs), c'.texts)
    ensures WellFormed(c') && Topology(c') == Topology(c)
  {
    assert Topology(c') == Topology(c);
    forall s | s in c'.servers ensures WellFormedServer(c', s) {
      if s != n {
        assert WellFormedServer(c, s);
      }
    }
    forall m | m in c'.net ensures Edge(Topology(c'), m.src, m.dst) {
      if m !in e.msgs {
        assert m in c.net;
      }
    }
  }

  lemma {:induction false} RunKeepsWellFormed(c: Cluster, steps: seq<Step>)
    requires WellFormed(c) && Run(c, steps)
    ensures WellFormed(End(c, steps)) && Topology(End(c, steps)) == Topology(c)
    decreases |steps|
  {
    if steps != [] {
      var n := |steps| - 1;
      RunKeepsWellFormed(c, steps[..n]);
      StepKeepsWellFormed(End(c, steps[..n]), steps[n]);
    }
  }

  lemma ListingShape(c: Cluster, chan: string)
    requires WellFormed(c)
    ensures Loopless(Listing(c, chan)) && Subgraph(Listing(c, chan), Topology(c))
  {
    var g := Listing(c, chan);
    forall u, v | Edge(g, u, v) ensures Edge(Topology(c), u, v) {
      assert WellFormedServer(c, u);
    }
    forall u ensures !Edge(g, u, u) {
      assert !Edge(Topology(c), u, u);
    }
  }

  // One server's new state shows in a channel's graph at that server only.
  lemma ListingUpdate(c: Cluster, n: Addr, sv: Server, c': Cluster, chan: string)
    requires n in c.servers && c'.servers == c.servers[n := sv]
    ensures Listing(c', chan) ==
      if chan in sv.channels then Listing(c, chan)[n := sv.channels[chan].servers] else Listing(c, chan) - {n}
  {
  }

  lemma Posted(net: multiset<Msg>, msgs: set<Msg>, m: Msg)
    ensures (net + multiset(msgs))[m] == net[m] + if m in msgs then 1 else 0
  {
  }

  lemma {:induction false} BroadcastSize(me: Addr, to: set<Addr>, chan: string, body: Body)
    ensures |Broadcast(me, to, chan, body)| == |to|
    decreases |to|
  {
    if to == {} {
      assert Broadcast(me, to, chan, body) == {};
    } else {
      var t :| t in to;
      BroadcastSize(me, to - {t}, chan, body);
      assert Broadcast(me, to, chan, body) == Broadcast(me, to - {t}, chan, body) + {Msg(me, t, chan, body)};
    }
  }

  lemma {:induction false} RunPrefix(c: Cluster, steps: seq<Step>, n: nat)
    requires Run(c, steps) && n <= |steps|
    ensures Run(c, steps[..n])
    decreases |steps|
  {
    if n < |steps| {
      RunPrefix(c, steps[..|steps| - 1], n);
      assert steps[..|steps| - 1][..n] == steps[..n];
    } else {
      assert steps[..n] == steps;
    }
  }

  lemma {:induction false} RunConcat(c: Cluster, first: seq<Step>, rest: seq<Step>)
    requires Run(c, first) && Run(End(c, first), rest)
    ensures Run(c, first + rest) && End(c, first + rest) == End(End(c, first), rest)
    decreases |rest|
  {
    hide Allowed, After;
    if rest == [] {
      assert first + rest == first;
    } else {
      var n := |rest| - 1;
      RunConcat(c, first, rest[..n]);
      assert (first + rest)[..|first| + n] == first + rest[..n];
    }
  }

  lemma RunOne(c: Cluster, step: Step)
    requires Allowed(c, step)
    ensures Run(c, [step]) && End(c, [step]) == After(c, step)
  {
    assert [step][..0] == [];
  }

  // A datagram that is not delivered stays in flight.
  lemma {:induction false} OthersStay(c: Cluster, steps: seq<Step>, m: Msg)
    requires Run(c, steps) && m in c.net && Deliver(m) !in steps
    ensures m in End(c, steps).net
    decreases |steps|
  {
    if steps != [] {
      var n := |steps| - 1;
      OthersStay(c, steps[..n], m);
      assert steps[n] != Deliver(m);
    }
  }
}
