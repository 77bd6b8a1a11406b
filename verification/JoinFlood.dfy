/**
 Joining a channel floods the whole connected network.

 A server that has to create a channel tells all its neighbours, and only then;
 so a server holding the channel is listed by each neighbour or is about to be.
*/
module JoinFlood {
  import opened Addresses
  import opened Graphs
  import opened Protocol
  import opened Sums

  // A logged-in client's join, or the delivery of a join.
  ghost predicate Joining(c: Cluster, step: Step) {
    && Enabled(c, step)
    && (step.ClientJoin? || (step.Deliver? && step.msg.body.Join?))
    && (step.ClientJoin? ==> LoggedIn(c.servers[step.at], step.addr))
  }

  ghost predicate JoinRun(c: Cluster, steps: seq<Step>)
    requires Run(c, steps)
    decreases |steps|
  {
    steps == [] ||
    (var n := |steps| - 1;
     JoinRun(c, steps[..n]) && Joining(End(c, steps[..n]), steps[n]))
  }

  // ----------------------------- what a join does to one channel's graph

  function Channels(step: Step): string
    requires step.ClientJoin? || step.Deliver?
  {
    if step.Deliver? then step.msg.chan else step.chan
  }

  function Senders(step: Step): set<Addr> {
    if step.Deliver? then {step.msg.src} else {}
  }

  // The site tells its neighbours when it is new to the channel or its own
  // client joins.
  ghost predicate Tells(c: Cluster, step: Step, chan: string, s: Addr, t: Addr)
    requires Site(step) in c.servers
  {
    var n := Site(step);
    s == n && t in c.servers[n].neighbours && (n !in Listing(c, chan) || step.ClientJoin?)
  }

  // The site lists the sender from now on, if there is one.
  ghost predicate Joined(c: Cluster, step: Step, c': Cluster, chan: string)
    requires Site(step) in c.servers
  {
    var n, g := Site(step), Listing(c, chan);
    && Listing(c', chan) == g[n := (if n in g then g[n] else {}) + Senders(step)]
    && (forall s, t {:trigger c'.net[Msg(s, t, chan, Join)]} ::
          c'.net[Msg(s, t, chan, Join)] + (if step == Deliver(Msg(s, t, chan, Join)) then 1 else 0) ==
          c.net[Msg(s, t, chan, Join)] + (if Tells(c, step, chan, s, t) then 1 else 0))
  }

  ghost predicate ElsewhereJoined(c: Cluster, c': Cluster, chan: string) {
    && Listing(c', chan) == Listing(c, chan)
    && (forall s, t {:trigger c'.net[Msg(s, t, chan, Join)]} ::
          c'.net[Msg(s, t, chan, Join)] == c.net[Msg(s, t, chan, Join)])
  }

  lemma JoinEffect(c: Cluster, step: Step)
    requires Allowed(c, step) && Joining(c, step)
    ensures
      var n, chan, e := Site(step), Channels(step), EffectOf(c, step);
      var sv := c.servers[n];
      && e.msgs == (if chan !in sv.channels || step.ClientJoin? then Broadcast(n, sv.neighbours, chan, Join) else {})
      && e.server.users == sv.users && e.server.channels.Keys == sv.channels.Keys + {chan}
      && e.server.channels[chan].servers ==
           (if chan in sv.channels then sv.channels[chan].servers else {}) + Senders(step)
      && (forall d :: d in sv.channels && d != chan ==> e.server.channels[d] == sv.channels[d])
  {
  }

  lemma JoinNet(c: Cluster, step: Step, chan: string, s: Addr, t: Addr)
    requires Allowed(c, step) && Joining(c, step)
    ensures
      var x := Msg(s, t, chan, Join);
      After(c, step).net[x] + (if step == Deliver(x) then 1 else 0) ==
        c.net[x] + if chan == Channels(step) && Tells(c, step, chan, s, t) then 1 else 0
  {
    var x := Msg(s, t, chan, Join);
    JoinEffect(c, step);
    Posted(if step.Deliver? then c.net - multiset{step.msg} else c.net, EffectOf(c, step).msgs, x);
  }

  lemma JoinListing(c: Cluster, step: Step, chan: string)
    requires Allowed(c, step) && Joining(c, step)
    ensures
      var n, g := Site(step), Listing(c, chan);
      Listing(After(c, step), chan) ==
        if Channels(step) == chan then g[n := (if n in g then g[n] else {}) + Senders(step)] else g
  {
    hide Broadcast;
    JoinEffect(c, step);
    ListingUpdate(c, Site(step), EffectOf(c, step).server, After(c, step), chan);
    assert Channels(step) != chan ==> Listing(After(c, step), chan) == Listing(c, chan);
  }

  lemma JoinShape(c: Cluster, step: Step, chan: string)
    requires Allowed(c, step) && Joining(c, step)
    ensures if Channels(step) == chan then Joined(c, step, After(c, step), chan)
            else ElsewhereJoined(c, After(c, step), chan)
  {
    hide Allowed, After, Listing;
    JoinListing(c, step, chan);
    forall s, t {
      JoinNet(c, step, chan, s, t);
    }
  }

  // -------------------------------------------------------- convergence

  // Every neighbour of a holder that is not one of `before` lists it or has its
  // join in flight; joins come from holders, and only holders are listed.
  ghost predicate Announced(c: Cluster, chan: string, before: set<Addr>) {
    var g := Listing(c, chan);
    && (forall s, t {:trigger Edge(Topology(c), s, t)} :: Edge(Topology(c), s, t) && s in g && s !in before ==>
          Edge(g, t, s) || c.net[Msg(s, t, chan, Join)] > 0)
    && Truthful(c, chan)
  }

  ghost predicate Truthful(c: Cluster, chan: string) {
    var g := Listing(c, chan);
    && (forall s, t {:trigger c.net[Msg(s, t, chan, Join)]} :: c.net[Msg(s, t, chan, Join)] > 0 ==> s in g)
    && (forall s, t {:trigger Edge(g, t, s)} :: Edge(g, t, s) ==> s in g)
  }

  lemma JoinedKeepsTruthful(c: Cluster, step: Step, c': Cluster, chan: string)
    requires Enabled(c, step) && (step.Deliver? ==> step.msg.body.Join? && step.msg.chan == chan)
    requires Joined(c, step, c', chan) && Truthful(c, chan)
    ensures Truthful(c', chan)
  {
    var g, g' := Listing(c, chan), Listing(c', chan);
    if step.Deliver? {
      var m := step.msg;
      assert m == Msg(m.src, m.dst, chan, Join) && c.net[m] > 0;
    }
    forall s, t | Edge(g', t, s) ensures s in g' {
      if !Edge(g, t, s) {
        assert step.Deliver? && s == step.msg.src;
      }
    }
  }

  lemma JoinedKeepsAnnounced(c: Cluster, step: Step, c': Cluster, chan: string, before: set<Addr>)
    requires Enabled(c, step) && (step.Deliver? ==> step.msg.body.Join? && step.msg.chan == chan)
    requires Joined(c, step, c', chan) && Announced(c, chan, before) && Topology(c') == Topology(c)
    ensures Announced(c', chan, before)
  {
    var g, g' := Listing(c, chan), Listing(c', chan);
    JoinedKeepsTruthful(c, step, c', chan);
    forall s, t | Edge(Topology(c'), s, t) && s in g' && s !in before
      ensures Edge(g', t, s) || c'.net[Msg(s, t, chan, Join)] > 0
    {
      assert Edge(Topology(c), s, t);
      if s in g && Edge(g, t, s) {
        assert Edge(g', t, s);
      }
    }
  }

  lemma ElsewhereKeepsAnnounced(c: Cluster, c': Cluster, chan: string, before: set<Addr>)
    requires ElsewhereJoined(c, c', chan) && Topology(c') == Topology(c)
    ensures Truthful(c, chan) ==> Truthful(c', chan)
    ensures Announced(c, chan, before) ==> Announced(c', chan, before)
  {
    if Announced(c, chan, before) {
      forall s, t | Edge(Topology(c'), s, t) && s in Listing(c', chan) && s !in before
        ensures Edge(Listing(c', chan), t, s) || c'.net[Msg(s, t, chan, Join)] > 0
      {
        assert Edge(Topology(c), s, t);
      }
    }
  }

  lemma JoinKeepsTruthful(c: Cluster, step: Step, chan: string)
    requires WellFormed(c) && Allowed(c, step) && Joining(c, step)
    ensures Truthful(c, chan) ==> Truthful(After(c, step), chan)
    ensures Listing(c, chan).Keys <= Listing(After(c, step), chan).Keys
    ensures Subgraph(Listing(c, chan), Listing(After(c, step), chan))
  {
    JoinShape(c, step, chan);
    if Channels(step) != chan {
      ElsewhereKeepsAnnounced(c, After(c, step), chan, {}) by { StepKeepsWellFormed(c, step); }
    } else if Truthful(c, chan) {
      JoinedKeepsTruthful(c, step, After(c, step), chan);
    }
  }

  lemma JoinKeepsAnnounced(c: Cluster, step: Step, chan: string, before: set<Addr>)
    requires WellFormed(c) && Allowed(c, step) && Joining(c, step) && Announced(c, chan, before)
    ensures Announced(After(c, step), chan, before)
  {
    JoinShape(c, step, chan);
    StepKeepsWellFormed(c, step);
    if Channels(step) != chan {
      ElsewhereKeepsAnnounced(c, After(c, step), chan, before);
    } else {
      JoinedKeepsAnnounced(c, step, After(c, step), chan, before);
    }
  }

  lemma {:induction false} JoinRunKeepsAnnounced(c: Cluster, steps: seq<Step>, chan: string, before: set<Addr>)
    requires WellFormed(c) && Announced(c, chan, before) && Run(c, steps) && JoinRun(c, steps)
    ensures Announced(End(c, steps), chan, before)
    decreases |steps|
  {
    hide Announced, Allowed, After, Joining;
    if steps != [] {
      var n := |steps| - 1;
      JoinRunKeepsAnnounced(c, steps[..n], chan, before);
      RunKeepsWellFormed(c, steps[..n]);
      JoinKeepsAnnounced(End(c, steps[..n]), steps[n], chan, before);
    }
  }

  // The servers whose own clients joined the channel during the run.
  function Joiners(steps: seq<Step>, chan: string): set<Addr> {
    set i | 0 <= i < |steps| && steps[i].ClientJoin? && steps[i].chan == chan :: steps[i].at
  }

  ghost predicate ReachedFrom(g: Graph, from: set<Addr>, t: Addr) {
    exists j :: j in from && Reaches(g, j, t)
  }

  // Nobody holds the channel unless a joiner reaches it.
  ghost predicate Reached(c: Cluster, top: Graph, from: set<Addr>, chan: string) {
    && (forall t :: t in Listing(c, chan) ==> ReachedFrom(top, from, t))
    && (forall j :: j in from ==> j in Listing(c, chan))
  }

  // A new holder is a joiner, or was told by a holder next to it.
  lemma NewHolder(c: Cluster, step: Step, chan: string)
    requires WellFormed(c) && Allowed(c, step) && Joining(c, step) && Truthful(c, chan)
    requires Channels(step) == chan
    ensures Listing(After(c, step), chan).Keys == Listing(c, chan).Keys + {Site(step)}
    ensures step.Deliver? ==> step.msg.src in Listing(c, chan) && Edge(Topology(c), step.msg.src, Site(step))
  {
    hide After, EffectAt, SafeAt;
    JoinShape(c, step, chan);
    if step.Deliver? {
      var m := step.msg;
      assert m == Msg(m.src, m.dst, chan, Join) && c.net[m] > 0;
      assert m in c.net;
    }
  }

  lemma ReachedMore(top: Graph, from: set<Addr>, from': set<Addr>, t: Addr)
    requires ReachedFrom(top, from, t) && from <= from'
    ensures ReachedFrom(top, from', t)
  {
  }

  lemma ReachedNext(top: Graph, from: set<Addr>, s: Addr, t: Addr)
    requires ReachedFrom(top, from, s) && Edge(top, s, t)
    ensures ReachedFrom(top, from, t)
  {
    var j :| j in from && Reaches(top, j, s);
    ReachesSnoc(top, j, s, t);
  }

  lemma JoinKeepsReached(c: Cluster, step: Step, chan: string, from: set<Addr>, from': set<Addr>)
    requires WellFormed(c) && Allowed(c, step) && Joining(c, step) && Truthful(c, chan)
    requires Reached(c, Topology(c), from, chan)
    requires from' == from + if step.ClientJoin? && step.chan == chan then {step.at} else {}
    ensures Reached(After(c, step), Topology(c), from', chan)
  {
    hide After, Allowed, WellFormed, Truthful, Joining, Listing, ReachedFrom, Topology;
    var g', n := Listing(After(c, step), chan), Site(step);
    JoinKinds(c, step);
    if Channels(step) != chan {
      JoinListing(c, step, chan);
    } else {
      NewHolder(c, step, chan);
    }
    forall t | t in g' ensures ReachedFrom(Topology(c), from', t) {
      if t in Listing(c, chan) {
        ReachedMore(Topology(c), from, from', t);
      } else if step.ClientJoin? {
        ReachedSelf(Topology(c), from', t);
      } else {
        ReachedMore(Topology(c), from, from', step.msg.src);
        ReachedNext(Topology(c), from', step.msg.src, t);
      }
    }
  }

  lemma JoinKinds(c: Cluster, step: Step)
    requires Joining(c, step)
    ensures step.ClientJoin? || step.Deliver?
  {
  }

  lemma ReachedSelf(top: Graph, from: set<Addr>, t: Addr)
    requires t in from
    ensures ReachedFrom(top, from, t)
  {
    ReachesSelf(top, t);
  }

  lemma {:induction false} HoldersAreReached(c: Cluster, steps: seq<Step>, chan: string)
    requires WellFormed(c) && Drained(c) && Listing(c, chan) == map[] && Run(c, steps) && JoinRun(c, steps)
    ensures Reached(End(c, steps), Topology(c), Joiners(steps, chan), chan)
    ensures Announced(End(c, steps), chan, {})
    decreases |steps|
  {
    JoinRunKeepsAnnounced(c, steps, chan, {});
    if steps != [] {
      var n := |steps| - 1;
      HoldersAreReached(c, steps[..n], chan);
      RunKeepsWellFormed(c, steps[..n]);
      JoinersSnoc(steps, chan);
      JoinKeepsReached(End(c, steps[..n]), steps[n], chan, Joiners(steps[..n], chan), Joiners(steps, chan));
    }
  }

  lemma JoinersSnoc(steps: seq<Step>, chan: string)
    requires steps != []
    ensures
      var n := |steps| - 1;
      Joiners(steps, chan) == Joiners(steps[..n], chan) +
        if steps[n].ClientJoin? && steps[n].chan == chan then {steps[n].at} else {}
  {
    var n := |steps| - 1;
    forall j | j in Joiners(steps[..n], chan) ensures j in Joiners(steps, chan) {
      var i :| 0 <= i < n && steps[..n][i].ClientJoin? && steps[..n][i].chan == chan && steps[..n][i].at == j;
      assert steps[i] == steps[..n][i];
    }
    forall j | j in Joiners(steps, chan)
      ensures j in Joiners(steps[..n], chan) || (steps[n].ClientJoin? && steps[n].chan == chan && steps[n].at == j)
    {
      var i :| 0 <= i < |steps| && steps[i].ClientJoin? && steps[i].chan == chan && steps[i].at == j;
      if i < n {
        assert steps[i] == steps[..n][i];
      }
    }
  }

  // A set of servers closed under adjacency contains whatever it reaches.
  lemma {:induction false} ClosedUnderReach(g: Graph, s: set<Addr>, w: seq<Addr>)
    requires Walk(g, w) && w[0] in s
    requires forall u, v :: Edge(g, u, v) && u in s ==> v in s
    ensures w[|w| - 1] in s
    decreases |w|
  {
    if |w| > 1 {
      WalkSlice(g, w, 0, |w| - 1);
      ClosedUnderReach(g, s, w[0..|w| - 1]);
      assert Hop(g, w, |w| - 1);
      assert Edge(g, w[|w| - 2], w[|w| - 1]);
    }
  }

  /** From an empty channel, once logged-in joins have drained in any order, the
      servers holding the channel are exactly those some joiner is connected to,
      and each of them lists exactly its neighbours. */
  lemma JoinsConverge(c: Cluster, steps: seq<Step>, chan: string)
    requires WellFormed(c) && Drained(c) && Listing(c, chan) == map[]
    requires Run(c, steps) && JoinRun(c, steps) && Drained(End(c, steps))
    ensures forall t :: Holds(End(c, steps), t, chan) <==>
      t in c.servers && ReachedFrom(Topology(c), Joiners(steps, chan), t)
    ensures forall t :: Holds(End(c, steps), t, chan) ==>
      Listing(End(c, steps), chan)[t] == c.servers[t].neighbours
  {
    HoldersAreReached(c, steps, chan);
    RunKeepsWellFormed(c, steps);
    Converged(End(c, steps), chan, Joiners(steps, chan));
    SameTopology(c, End(c, steps));
  }

  lemma SameTopology(c: Cluster, c': Cluster)
    requires Topology(c') == Topology(c)
    ensures c'.servers.Keys == c.servers.Keys
    ensures forall s :: s in c.servers ==> c'.servers[s].neighbours == c.servers[s].neighbours
  {
    assert c'.servers.Keys == Topology(c').Keys;
    forall s | s in c.servers ensures c'.servers[s].neighbours == c.servers[s].neighbours {
      assert Topology(c')[s] == Topology(c)[s];
    }
  }

  // Once drained, holders and listings are closed under adjacency.
  lemma DrainedClosed(c: Cluster, chan: string)
    requires WellFormed(c) && Drained(c) && Announced(c, chan, {})
    ensures
      var g := Listing(c, chan);
      forall s, t {:trigger Edge(Topology(c), s, t)} :: Edge(Topology(c), s, t) && s in g ==> Edge(g, t, s) && t in g
  {
    var g := Listing(c, chan);
    forall s, t | Edge(Topology(c), s, t) && s in g ensures Edge(g, t, s) && t in g {
      assert c.net[Msg(s, t, chan, Join)] == 0;
    }
  }

  lemma ListsNeighbours(c: Cluster, chan: string, t: Addr)
    requires WellFormed(c) && Drained(c) && Announced(c, chan, {}) && t in Listing(c, chan)
    ensures Listing(c, chan)[t] == c.servers[t].neighbours
  {
    var g := Listing(c, chan);
    DrainedClosed(c, chan);
    assert WellFormedServer(c, t);
    forall s | s in c.servers[t].neighbours ensures s in g[t] {
      assert Edge(Topology(c), t, s) && Edge(Topology(c), s, t);
      assert Edge(g, t, s);
    }
  }

  lemma Converged(c: Cluster, chan: string, from: set<Addr>)
    requires WellFormed(c) && Drained(c) && Announced(c, chan, {}) && Reached(c, Topology(c), from, chan)
    ensures forall t :: t in Listing(c, chan) <==> t in c.servers && ReachedFrom(Topology(c), from, t)
    ensures forall t :: t in Listing(c, chan) ==> Listing(c, chan)[t] == c.servers[t].neighbours
  {
    hide WellFormed, Announced;
    var g, top := Listing(c, chan), Topology(c);
    DrainedClosed(c, chan);
    forall t | t in c.servers && ReachedFrom(top, from, t) ensures t in g {
      var j :| j in from && Reaches(top, j, t);
      var w :| WalkBetween(top, j, w, t);
      ClosedUnderReach(top, g.Keys, w);
    }
    forall t | t in g ensures g[t] == c.servers[t].neighbours {
      ListsNeighbours(c, chan, t);
    }
  }

  // ------------------------------------------------------------ exact cost

  function Degrees(c: Cluster): map<Addr, nat> {
    map s | s in c.servers :: |c.servers[s].neighbours|
  }

  function Holders(c: Cluster, chan: string): set<Addr> {
    Listing(c, chan).Keys
  }

  lemma DeliverySize(c: Cluster, m: Msg)
    requires Allowed(c, Deliver(m))
    ensures |After(c, Deliver(m)).net| == |c.net| - 1 + |EffectOf(c, Deliver(m)).msgs|
  {
  }

  lemma JoinSizes(c: Cluster, m: Msg)
    requires Allowed(c, Deliver(m)) && m.body.Join?
    ensures Degrees(After(c, Deliver(m))) == Degrees(c)
    ensures Holders(After(c, Deliver(m)), m.chan) == Holders(c, m.chan) + {m.dst}
    ensures forall d :: d != m.chan ==> Holders(After(c, Deliver(m)), d) == Holders(c, d)
  {
    JoinEffect(c, Deliver(m));
  }

  lemma JoinSends(c: Cluster, m: Msg)
    requires Allowed(c, Deliver(m)) && m.body.Join?
    ensures |After(c, Deliver(m)).net| == |c.net| - 1 + if m.dst in Holders(c, m.chan) then 0 else Degrees(c)[m.dst]
  {
    DeliverySize(c, m);
    JoinEffect(c, Deliver(m));
    BroadcastSize(m.dst, c.servers[m.dst].neighbours, m.chan, Join);
  }

  /** Every delivery of a join, in whatever state, lowers by one the datagrams in
      flight plus the degrees of the servers that still lack the channel. */
  lemma JoinPaysOne(c: Cluster, m: Msg, all: set<Addr>)
    requires Allowed(c, Deliver(m)) && m.body.Join? && m.dst in all && all <= c.servers.Keys
    ensures
      |After(c, Deliver(m)).net| + Sum(all - Holders(After(c, Deliver(m)), m.chan), Degrees(c)) + 1 ==
      |c.net| + Sum(all - Holders(c, m.chan), Degrees(c))
  {
    hide After, Allowed, Listing;
    var held := Holders(c, m.chan);
    JoinSizes(c, m);
    JoinSends(c, m);
    if m.dst in held {
      assert held + {m.dst} == held;
    } else {
      SumMinus(all - held, Degrees(c), m.dst);
      assert all - held - {m.dst} == all - (held + {m.dst});
    }
  }

  ghost function Lack(c: Cluster, all: set<Addr>, names: set<string>): map<string, nat>
    requires all <= c.servers.Keys
  {
    map n | n in names :: Sum(all - Holders(c, n), Degrees(c))
  }

  // The degrees of the servers that lack a channel, over all those channels.
  ghost function Lacking(c: Cluster, all: set<Addr>, names: set<string>): nat
    requires all <= c.servers.Keys
  {
    Sum(names, Lack(c, all, names))
  }

  // Nothing but joins is in flight, of these channels and to these servers, and
  // the servers have no neighbours outside.
  ghost predicate Contained(c: Cluster, all: set<Addr>, names: set<string>) {
    && all <= c.servers.Keys
    && (forall s :: s in all ==> c.servers[s].neighbours <= all)
    && (forall m :: m in c.net ==> m.body.Join? && m.chan in names && m.dst in all)
  }

  lemma DeliveryKeepsContained(c: Cluster, all: set<Addr>, names: set<string>, m: Msg)
    requires Contained(c, all, names) && Allowed(c, Deliver(m))
    ensures Joining(c, Deliver(m)) && Contained(After(c, Deliver(m)), all, names)
  {
    var c', e := After(c, Deliver(m)), EffectOf(c, Deliver(m));
    assert m in c.net;
    JoinEffect(c, Deliver(m));
    forall x | x in c'.net ensures x.body.Join? && x.chan in names && x.dst in all {
      assert x in c.net || x in e.msgs;
    }
  }

  lemma DeliveryPays(c: Cluster, all: set<Addr>, names: set<string>, m: Msg)
    requires Contained(c, all, names) && Allowed(c, Deliver(m))
    ensures After(c, Deliver(m)).servers.Keys == c.servers.Keys
    ensures
      |After(c, Deliver(m)).net| + Lacking(After(c, Deliver(m)), all, names) + 1 == |c.net| + Lacking(c, all, names)
  {
    assert m in c.net;
    JoinSizes(c, m);
    JoinPaysOne(c, m, all);
    SumChanges(names, Lack(c, all, names), Lack(After(c, Deliver(m)), all, names), m.chan);
  }

  /** Delivering joins costs exactly what it uses up of the joins in flight and of
      the degrees of servers lacking their channels; in particular it ends. */
  lemma {:induction false} DeliveriesPay(c: Cluster, all: set<Addr>, names: set<string>, steps: seq<Step>)
    requires Contained(c, all, names) && Run(c, steps) && AllDeliveries(steps)
    ensures Contained(End(c, steps), all, names) && JoinRun(c, steps)
    ensures |steps| + |End(c, steps).net| + Lacking(End(c, steps), all, names) == |c.net| + Lacking(c, all, names)
    decreases |steps|
  {
    if steps != [] {
      var n := |steps| - 1;
      DeliveriesPay(c, all, names, steps[..n]);
      DeliveryKeepsContained(End(c, steps[..n]), all, names, steps[n].msg);
      DeliveryPays(End(c, steps[..n]), all, names, steps[n].msg);
    }
  }

  // ------------------------------------------------------- joins do drain

  ghost predicate OnlyJoins(c: Cluster) {
    WellFormed(c) && forall m :: m in c.net ==> m.body.Join?
  }

  function Names(c: Cluster): set<string> {
    set m | m in c.net :: m.chan
  }

  lemma JoinsContained(c: Cluster)
    requires OnlyJoins(c)
    ensures Contained(c, c.servers.Keys, Names(c))
    ensures forall m :: m in c.net ==> Allowed(c, Deliver(m))
  {
    forall s, t | s in c.servers && t in c.servers[s].neighbours ensures t in c.servers {
      assert Edge(Topology(c), s, t) && Edge(Topology(c), t, s);
    }
    forall m | m in c.net ensures m.dst in c.servers && m.src in c.servers[m.dst].neighbours {
      assert Edge(Topology(c), m.src, m.dst) && Edge(Topology(c), m.dst, m.src);
    }
  }

  /** From any state with only joins in flight, every order of deliveries ends
      within a fixed bound, and can be continued until nothing is in flight. */
  lemma {:induction false} JoinsDrain(c: Cluster) returns (steps: seq<Step>)
    requires OnlyJoins(c)
    ensures Run(c, steps) && AllDeliveries(steps) && JoinRun(c, steps) && Drained(End(c, steps))
    ensures forall other :: Run(c, other) && AllDeliveries(other) ==>
      |other| <= |c.net| + Lacking(c, c.servers.Keys, Names(c))
  {
    JoinsContained(c);
    steps := DrainContained(c, c.servers.Keys, Names(c));
    forall other | Run(c, other) && AllDeliveries(other)
      ensures |other| <= |c.net| + Lacking(c, c.servers.Keys, Names(c))
    {
      DeliveriesPay(c, c.servers.Keys, Names(c), other);
    }
  }

  lemma DrainStep(c: Cluster, all: set<Addr>, names: set<string>, m: Msg)
    requires OnlyJoins(c) && Contained(c, all, names) && m in c.net
    ensures Allowed(c, Deliver(m)) && OnlyJoins(After(c, Deliver(m))) && Contained(After(c, Deliver(m)), all, names)
    ensures
      |After(c, Deliver(m)).net| + Lacking(After(c, Deliver(m)), all, names) < |c.net| + Lacking(c, all, names)
  {
    hide After, Lacking, WellFormed;
    JoinsContained(c);
    DeliveryKeepsContained(c, all, names, m);
    StepKeepsWellFormed(c, Deliver(m));
    DeliveryPays(c, all, names, m);
  }

  lemma {:induction false} DrainContained(c: Cluster, all: set<Addr>, names: set<string>) returns (steps: seq<Step>)
    requires OnlyJoins(c) && Contained(c, all, names)
    ensures Run(c, steps) && AllDeliveries(steps) && JoinRun(c, steps) && Drained(End(c, steps))
    decreases |c.net| + Lacking(c, all, names)
  {
    hide OnlyJoins, Contained, Lacking, Allowed, After;
    if m :| m in c.net {
      DrainStep(c, all, names, m);
      var rest := DrainContained(After(c, Deliver(m)), all, names);
      RunOne(c, Deliver(m));
      RunConcat(c, [Deliver(m)], rest);
      steps := [Deliver(m)] + rest;
      DeliveriesPay(c, all, names, steps);
    } else {
      steps := [];
    }
  }

  // --------------------------------------------------- the first join's cost

  ghost function Connected(c: Cluster, j: Addr): set<Addr> {
    set t | t in c.servers && Reaches(Topology(c), j, t)
  }

  ghost function Delivered(steps: seq<Step>, m: Msg): nat {
    if steps == [] then 0
    else Delivered(steps[..|steps| - 1], m) + if steps[|steps| - 1] == Deliver(m) then 1 else 0
  }

  // Each holder in the component has sent each neighbour one join; what was
  // delivered was taken in.
  ghost predicate OneJoinEach(all: set<Addr>, top: Graph, chan: string, steps: seq<Step>, c: Cluster) {
    && (forall s, t {:trigger c.net[Msg(s, t, chan, Join)]} ::
          Delivered(steps, Msg(s, t, chan, Join)) + c.net[Msg(s, t, chan, Join)] ==
            if s in all && s in Listing(c, chan) && Edge(top, s, t) then 1 else 0)
    && (forall s, t {:trigger Delivered(steps, Msg(s, t, chan, Join))} ::
          Delivered(steps, Msg(s, t, chan, Join)) > 0 ==> t in Listing(c, chan))
  }

  lemma ConnectedClosed(c: Cluster, j: Addr)
    requires WellFormed(c) && j in c.servers
    ensures j in Connected(c, j)
    ensures forall s :: s in Connected(c, j) ==> c.servers[s].neighbours <= Connected(c, j)
  {
    ReachesSelf(Topology(c), j);
    forall s, t | s in Connected(c, j) && t in c.servers[s].neighbours ensures t in Connected(c, j) {
      assert Edge(Topology(c), s, t) && Edge(Topology(c), t, s);
      ReachesSnoc(Topology(c), j, s, t);
    }
  }

  // Nobody the joiner is connected to holds the channel.
  ghost predicate FirstJoin(c: Cluster, step: Step) {
    && WellFormed(c) && Drained(c) && step.ClientJoin? && Allowed(c, step) && Joining(c, step)
    && Connected(c, step.at) !! Holders(c, step.chan)
  }

  lemma FirstJoinSends(c: Cluster, step: Step)
    requires FirstJoin(c, step)
    ensures After(c, step).net == multiset(Broadcast(step.at, c.servers[step.at].neighbours, step.chan, Join))
    ensures Topology(After(c, step)) == Topology(c) && Degrees(After(c, step)) == Degrees(c)
    ensures Holders(After(c, step), step.chan) == Holders(c, step.chan) + {step.at}
  {
    JoinEffect(c, step);
    assert After(c, step).net == multiset(EffectOf(c, step).msgs);
  }

  lemma FirstJoinContained(c: Cluster, step: Step)
    requires FirstJoin(c, step)
    ensures Contained(After(c, step), Connected(c, step.at), {step.chan})
  {
    hide After, Allowed, Listing;
    ConnectedClosed(c, step.at);
    FirstJoinSends(c, step);
    SameTopology(c, After(c, step));
  }

  lemma FirstJoinOwes(c: Cluster, step: Step)
    requires FirstJoin(c, step)
    ensures Contained(After(c, step), Connected(c, step.at), {step.chan})
    ensures |After(c, step).net| + Lacking(After(c, step), Connected(c, step.at), {step.chan}) ==
      Sum(Connected(c, step.at), Degrees(c))
  {
    hide After, Allowed, Listing, WellFormed;
    var j, chan, all, c' := step.at, step.chan, Connected(c, step.at), After(c, step);
    FirstJoinContained(c, step);
    ConnectedClosed(c, j);
    FirstJoinSends(c, step);
    BroadcastSize(j, c.servers[j].neighbours, chan, Join);
    assert all - Holders(c', chan) == all - {j};
    SumMinus(all, Degrees(c), j);
    SumMinus({chan}, Lack(c', all, {chan}), chan);
  }

  lemma FirstJoinCounts(c: Cluster, step: Step)
    requires FirstJoin(c, step)
    ensures OneJoinEach(Connected(c, step.at), Topology(c), step.chan, [], After(c, step))
  {
    JoinShape(c, step, step.chan);
    ConnectedClosed(c, step.at);
    forall s, t ensures After(c, step).net[Msg(s, t, step.chan, Join)] ==
        if s == step.at && Edge(Topology(c), s, t) then 1 else 0 {
      JoinNet(c, step, step.chan, s, t);
    }
  }

  lemma DeliveredSnoc(steps: seq<Step>, m: Msg, x: Msg)
    ensures Delivered(steps + [Deliver(m)], x) == Delivered(steps, x) + if x == m then 1 else 0
  {
    assert (steps + [Deliver(m)])[..|steps|] == steps;
  }

  lemma ArrivalCounts(all: set<Addr>, top: Graph, chan: string, steps: seq<Step>, c: Cluster, m: Msg, c': Cluster)
    requires Enabled(c, Deliver(m)) && m == Msg(m.src, m.dst, chan, Join) && m.dst in all && top == Topology(c)
    requires Joined(c, Deliver(m), c', chan) && OneJoinEach(all, top, chan, steps, c)
    ensures OneJoinEach(all, top, chan, steps + [Deliver(m)], c')
  {
    hide Delivered;
    var steps' := steps + [Deliver(m)];
    forall s, t
      ensures Delivered(steps', Msg(s, t, chan, Join)) + c'.net[Msg(s, t, chan, Join)] ==
        if s in all && s in Listing(c', chan) && Edge(top, s, t) then 1 else 0
      ensures Delivered(steps', Msg(s, t, chan, Join)) > 0 ==> t in Listing(c', chan)
    {
      DeliveredSnoc(steps, m, Msg(s, t, chan, Join));
    }
  }

  lemma StepCounts(all: set<Addr>, top: Graph, chan: string, steps: seq<Step>, c: Cluster, m: Msg)
    requires Allowed(c, Deliver(m)) && Contained(c, all, {chan}) && top == Topology(c)
    requires OneJoinEach(all, top, chan, steps, c)
    ensures OneJoinEach(all, top, chan, steps + [Deliver(m)], After(c, Deliver(m)))
  {
    hide After, OneJoinEach;
    assert m in c.net && m == Msg(m.src, m.dst, chan, Join);
    DeliveryKeepsContained(c, all, {chan}, m);
    JoinShape(c, Deliver(m), chan);
    ArrivalCounts(all, top, chan, steps, c, m, After(c, Deliver(m)));
  }

  lemma {:induction false} FloodCounts(all: set<Addr>, chan: string, c: Cluster, steps: seq<Step>)
    requires WellFormed(c) && Contained(c, all, {chan}) && Run(c, steps) && AllDeliveries(steps)
    requires OneJoinEach(all, Topology(c), chan, [], c)
    ensures OneJoinEach(all, Topology(c), chan, steps, End(c, steps))
    ensures Listing(c, chan).Keys <= Listing(End(c, steps), chan).Keys
    decreases |steps|
  {
    hide OneJoinEach, Contained, WellFormed, Allowed, After;
    if steps != [] {
      var n := |steps| - 1;
      var before, mid := steps[..n], End(c, steps[..n]);
      assert before + [Deliver(steps[n].msg)] == steps;
      FloodCounts(all, chan, c, before);
      DeliveriesPay(c, all, {chan}, before);
      RunKeepsWellFormed(c, before);
      StepCounts(all, Topology(c), chan, before, mid, steps[n].msg);
      DeliveryKeepsContained(mid, all, {chan}, steps[n].msg);
      JoinKeepsTruthful(mid, steps[n], chan);
    }
  }

  // Once nothing is in flight the whole component holds the channel.
  lemma FloodReachesAll(c: Cluster, j: Addr, chan: string, steps: seq<Step>, c': Cluster)
    requires WellFormed(c) && Drained(c') && OneJoinEach(Connected(c, j), Topology(c), chan, steps, c')
    requires j in Listing(c', chan) && j in c.servers
    ensures Connected(c, j) <= Listing(c', chan).Keys
  {
    var held := Listing(c', chan).Keys * Connected(c, j);
    ConnectedClosed(c, j);
    forall s, t | Edge(Topology(c), s, t) && s in held ensures t in held {
      assert c'.net[Msg(s, t, chan, Join)] == 0;
      assert Delivered(steps, Msg(s, t, chan, Join)) > 0;
    }
    forall t | t in Connected(c, j) ensures t in held {
      var w :| WalkBetween(Topology(c), j, w, t);
      ClosedUnderReach(Topology(c), held, w);
    }
  }

  lemma NothingLacking(c: Cluster, all: set<Addr>, chan: string)
    requires all <= c.servers.Keys && all <= Holders(c, chan)
    ensures Lacking(c, all, {chan}) == 0
  {
    assert all - Holders(c, chan) == {};
    SumMinus({chan}, Lack(c, all, {chan}), chan);
  }

  lemma AllDelivered(all: set<Addr>, top: Graph, chan: string, steps: seq<Step>, c: Cluster)
    requires Drained(c) && OneJoinEach(all, top, chan, steps, c) && all <= Holders(c, chan)
    ensures forall s, t :: Delivered(steps, Msg(s, t, chan, Join)) == if s in all && Edge(top, s, t) then 1 else 0
  {
    forall s, t ensures Delivered(steps, Msg(s, t, chan, Join)) == if s in all && Edge(top, s, t) then 1 else 0 {
      assert c.net[Msg(s, t, chan, Join)] == 0;
    }
  }

  lemma FirstJoinHeld(c: Cluster, step: Step, steps: seq<Step>)
    requires FirstJoin(c, step)
    requires Run(After(c, step), steps) && AllDeliveries(steps)
    ensures OneJoinEach(Connected(c, step.at), Topology(c), step.chan, steps, End(After(c, step), steps))
    ensures Drained(End(After(c, step), steps)) ==>
      Connected(c, step.at) <= Holders(End(After(c, step), steps), step.chan)
  {
    hide OneJoinEach, After, Allowed, Contained;
    FirstJoinContained(c, step);
    FirstJoinCounts(c, step);
    FirstJoinSends(c, step);
    StepKeepsWellFormed(c, step);
    FloodCounts(Connected(c, step.at), step.chan, After(c, step), steps);
    if Drained(End(After(c, step), steps)) {
      FloodReachesAll(c, step.at, step.chan, steps, End(After(c, step), steps));
    }
  }

  /** The first client join of a channel in a connected network: the flood always
      ends, after exactly as many deliveries as the degrees of that network add up
      to, one for each server and each of its neighbours. */
  lemma FirstJoinCost(c: Cluster, step: Step, steps: seq<Step>)
    requires FirstJoin(c, step)
    requires Run(After(c, step), steps) && AllDeliveries(steps)
    ensures |steps| <= Sum(Connected(c, step.at), Degrees(c))
    ensures Drained(End(After(c, step), steps)) <==> |steps| == Sum(Connected(c, step.at), Degrees(c))
    ensures Drained(End(After(c, step), steps)) ==>
      forall s, t :: Delivered(steps, Msg(s, t, step.chan, Join)) ==
        if s in Connected(c, step.at) && Edge(Topology(c), s, t) then 1 else 0
  {
    hide OneJoinEach, After, Allowed, Connected, Contained, Degrees, Lacking;
    var c1, chan, all := After(c, step), step.chan, Connected(c, step.at);
    var c' := End(c1, steps);
    FirstJoinOwes(c, step);
    DeliveriesPay(c1, all, {chan}, steps);
    FirstJoinHeld(c, step, steps);
    ContainedServers(c', all, {chan});
    if Drained(c') {
      NothingLacking(c', all, chan);
      AllDelivered(all, Topology(c), chan, steps, c');
    } else {
      assert |c'.net| > 0;
    }
  }

  lemma ContainedServers(c: Cluster, all: set<Addr>, names: set<string>)
    requires Contained(c, all, names)
    ensures all <= c.servers.Keys
  {
  }
}
