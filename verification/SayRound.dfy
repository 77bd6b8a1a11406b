/**
 One say, delivered everywhere exactly once.

 A `Round` is a settled cluster in which a client of `origin` says something on
 a channel whose subscription graph has no cycle around the origin. From then on
 datagrams are delivered in any order, with the prunes and leaves the say causes
 mixed in. The servers that have handled the say and the copies in flight always
 cut the component in the same way: a copy is in flight to exactly the unhandled
 servers whose predecessor on the route from the origin has handled it.
*/
module SayRound {
  import opened Addresses
  import opened Graphs
  import opened Protocol
  import opened Pruning

  datatype Round = Round(start: Cluster, origin: Addr, chan: string, say: Body) {
    ghost function Graph(): Graph {
      Listing(start, chan)
    }

    ghost function Users(v: Addr): set<Client> {
      if v in Graph() then start.servers[v].channels[chan].users else {}
    }

    // A server that drops the channel when the say reaches it.
    ghost predicate Leaf(v: Addr) {
      v in Graph() && v != origin && Users(v) == {} && |Graph()[v]| <= 1
    }

    ghost function Component(): set<Addr> {
      set v | v in Graph() && Reaches(Graph(), origin, v)
    }

    ghost function TextsAt(handled: set<Addr>): set<Text> {
      set v, u | v in handled && u in Users(v) :: Text(v, u, chan, SayWho(), SayText())
    }

    function SayWho(): string {
      if say.Say? then say.who else ""
    }

    function SayText(): string {
      if say.Say? then say.text else ""
    }

    ghost predicate Valid() {
      && say.Say? && Settled(start) && origin in Graph()
      && AcyclicAt(Graph(), origin)
    }
  }

  // The round that a client's say opens.
  ghost function Opened(c: Cluster, step: Step): Round
    requires Allowed(c, step) && step.ClientSay?
  {
    Round(c, step.at, step.chan, Say(step.uid, UserAt(c.servers[step.at], step.addr).name, step.text))
  }

  // ------------------------------------------------------------ invariant

  // A copy of the round's say.
  predicate CopyOf(r: Round, m: Msg) {
    m.body == r.say && m.chan == r.chan
  }

  // Every copy in flight goes to an unhandled server from its predecessor, once.
  ghost predicate CopiesRouted(r: Round, c: Cluster, handled: set<Addr>) {
    forall m {:trigger c.net[m]} :: m in c.net && CopyOf(r, m) ==>
      && c.net[m] == 1
      && Ahead(r.Graph(), r.origin, m.src, m.dst) && m.src in handled && m.dst !in handled
  }

  ghost predicate OnlyCopies(r: Round, c: Cluster) {
    forall m :: m in c.net && m.body.Say? ==> CopyOf(r, m)
  }

  // No unhandled server next to a handled predecessor has been forgotten.
  ghost predicate FrontierCovered(r: Round, c: Cluster, handled: set<Addr>) {
    forall u, v {:trigger Ahead(r.Graph(), r.origin, u, v)} :: Ahead(r.Graph(), r.origin, u, v) ==>
      && (v in handled ==> u in handled)
      && (u in handled && v !in handled ==> Msg(u, v, r.chan, r.say) in c.net)
  }

  ghost predicate LeavesFromLeaves(r: Round, c: Cluster, handled: set<Addr>) {
    forall m :: m in c.net ==>
      && !m.body.Join?
      && (m.body.Leave? && m.chan == r.chan ==> r.Leaf(m.src) && m.src in handled && m.dst in r.Graph()[m.src])
  }

  ghost predicate ServerAsExpected(r: Round, c: Cluster, handled: set<Addr>, v: Addr)
    requires v in c.servers
  {
    var g := r.Graph();
    if v in handled && r.Leaf(v) then
      r.chan !in c.servers[v].channels
    else if v in g then
      && r.chan in c.servers[v].channels
      && (var ch := c.servers[v].channels[r.chan];
          && ch.users == r.Users(v) && ch.seen == {} && ch.servers <= g[v]
          && (forall x :: x in g[v] && x !in ch.servers ==> v in handled && x in handled && r.Leaf(x)))
    else
      r.chan !in c.servers[v].channels
  }

  ghost predicate Flooding(r: Round, c: Cluster, handled: set<Addr>) {
    && c.servers.Keys == r.start.servers.Keys
    && r.origin in handled && handled <= r.Component()
    && CopiesRouted(r, c, handled) && OnlyCopies(r, c)
    && FrontierCovered(r, c, handled) && LeavesFromLeaves(r, c, handled)
    && (forall v {:trigger ServerAsExpected(r, c, handled, v)} :: v in c.servers ==> ServerAsExpected(r, c, handled, v))
    && c.texts == r.start.texts + multiset(r.TextsAt(handled))
  }

  // --------------------------------------------------------- the invariant holds

  lemma RoundShape(r: Round)
    requires r.Valid()
    ensures Symmetric(r.Graph()) && Loopless(r.Graph())
  {
    ListingShape(r.start, r.chan);
  }

  lemma NoLoop(g: Graph, v: Addr)
    requires Loopless(g)
    ensures !Edge(g, v, v)
  {
  }

  lemma OpeningFloods(c: Cluster, step: Step)
    requires Settled(c) && Allowed(c, step) && step.ClientSay? && AcyclicAt(Listing(c, step.chan), step.at)
    ensures Opened(c, step).Valid() && Flooding(Opened(c, step), After(c, step), {step.at})
  {
    hide Symmetric, Loopless, AcyclicAt, Ahead;
    var r := Opened(c, step);
    var c', g, o := After(c, step), r.Graph(), step.at;
    RoundShape(r);
    ReachesSelf(g, o);
    forall v | v in c'.servers ensures ServerAsExpected(r, c', {o}, v) {
      assert WellFormedServer(c, v);
    }
    assert WellFormedServer(c, o);
    forall m | m in c'.net
      ensures m.body == r.say && m.chan == r.chan && c'.net[m] == 1 && m.src == o && Ahead(g, o, o, m.dst) && m.dst != o
    {
      Posted(c.net, EffectOf(c, step).msgs, m);
      assert m in Broadcast(o, g[o], r.chan, r.say);
      assert Edge(g, o, m.dst);
      NoLoop(g, o);
      AheadStart(g, o, m.dst);
    }
    forall u, v | Ahead(g, o, u, v)
      ensures (v in {o} ==> u in {o}) && (u in {o} && v !in {o} ==> Msg(u, v, r.chan, r.say) in c'.net)
    {
      AheadUnique(g, o, u, u, v);
      AheadEdge(g, o, u, v);
    }
    assert Texts(o, r.Users(o), r.chan, r.SayWho(), r.SayText()) == r.TextsAt({o});
  }

  // A copy in flight finds its channel, and its receiver as the round began.
  lemma CopyArrives(r: Round, c: Cluster, handled: set<Addr>, m: Msg)
    requires r.Valid() && Flooding(r, c, handled) && m in c.net && m.body.Say?
    ensures Allowed(c, Deliver(m)) && m.body == r.say && m.chan == r.chan && c.net[m] == 1
    ensures Ahead(r.Graph(), r.origin, m.src, m.dst) && m.src in handled && m.dst !in handled
    ensures m.dst in r.Component() && !Edge(r.Graph(), m.dst, m.dst)
    ensures c.servers[m.dst].channels[r.chan] == Channel(r.Users(m.dst), r.Graph()[m.dst], {})
  {
    assert c.net[m] > 0;
    AheadEdge(r.Graph(), r.origin, m.src, m.dst);
    RoundShape(r);
    assert Edge(r.Graph(), m.dst, m.src);
    assert ServerAsExpected(r, c, handled, m.dst);
  }

  lemma CopyIsCopy(r: Round, c: Cluster, handled: set<Addr>, m: Msg)
    requires Flooding(r, c, handled) && m in c.net && m.body.Say?
    ensures CopyOf(r, m)
  {
  }

  // How the delivery of copy `m` changes the copies in flight.
  ghost predicate Forwarded(r: Round, c: Cluster, m: Msg, c': Cluster) {
    && m in c.net && m.dst in r.Graph()
    && (forall x: Msg {:trigger c'.net[x]} :: CopyOf(r, x) ==>
          c'.net[x] ==
            (if x == m then c.net[x] - 1 else c.net[x]) +
            (if x in Broadcast(m.dst, r.Graph()[m.dst] - {m.src}, r.chan, r.say) then 1 else 0))
  }

  lemma CopyForwards(r: Round, c: Cluster, handled: set<Addr>, m: Msg)
    requires r.Valid() && Flooding(r, c, handled) && m in c.net && m.body.Say?
    ensures Allowed(c, Deliver(m)) && Forwarded(r, c, m, After(c, Deliver(m)))
  {
    CopyArrives(r, c, handled, m);
    var c', e := After(c, Deliver(m)), EffectOf(c, Deliver(m));
    forall x: Msg | CopyOf(r, x) ensures c'.net[x] ==
        (if x == m then c.net[x] - 1 else c.net[x]) +
        (if x in Broadcast(m.dst, r.Graph()[m.dst] - {m.src}, r.chan, r.say) then 1 else 0) {
      Posted(c.net - multiset{m}, e.msgs, x);
    }
  }

  lemma ForwardedRoute(r: Round, c: Cluster, handled: set<Addr>, m: Msg, c': Cluster, x: Msg)
    requires Symmetric(r.Graph()) && Loopless(r.Graph()) && AcyclicAt(r.Graph(), r.origin)
    requires CopiesRouted(r, c, handled) && FrontierCovered(r, c, handled)
    requires m in c.net && CopyOf(r, m) && Forwarded(r, c, m, c') && x in c'.net && CopyOf(r, x)
    ensures c'.net[x] == 1
    ensures Ahead(r.Graph(), r.origin, x.src, x.dst) && x.src in handled + {m.dst} && x.dst !in handled + {m.dst}
  {
    var g, o, n := r.Graph(), r.origin, m.dst;
    assert c.net[m] == 1;
    assert c'.net[x] > 0;
    if x in Broadcast(n, g[n] - {m.src}, r.chan, r.say) {
      assert Edge(g, n, x.dst) && !Edge(g, n, n);
      AheadNext(g, o, m.src, n, x.dst);
      assert c.net[x] == 0;
    } else {
      assert c.net[x] > 0;
      if x.dst == n {
        AheadUnique(g, o, x.src, m.src, n);
      }
    }
  }

  lemma ForwardedFrontier(r: Round, c: Cluster, handled: set<Addr>, m: Msg, c': Cluster, u: Addr, v: Addr)
    requires Symmetric(r.Graph()) && Loopless(r.Graph()) && AcyclicAt(r.Graph(), r.origin)
    requires CopiesRouted(r, c, handled) && FrontierCovered(r, c, handled) && r.say.Say?
    requires m in c.net && CopyOf(r, m) && Forwarded(r, c, m, c') && Ahead(r.Graph(), r.origin, u, v)
    ensures v in handled + {m.dst} ==> u in handled + {m.dst}
    ensures u in handled + {m.dst} && v !in handled + {m.dst} ==> Msg(u, v, r.chan, r.say) in c'.net
  {
    var g, o, n := r.Graph(), r.origin, m.dst;
    var x := Msg(u, v, r.chan, r.say);
    assert c.net[m] == 1;
    AheadEdge(g, o, u, v);
    if v == n {
      AheadUnique(g, o, u, m.src, v);
    } else if u == n {
      if v == m.src {
        AheadUnique(g, o, v, v, u);
        AheadUnique(g, o, u, u, v);
      }
      assert c'.net[x] > 0;
    } else if u in handled && v !in handled {
      assert c'.net[x] == c.net[x];
    }
  }

  lemma CopyKeepsRouting(r: Round, c: Cluster, handled: set<Addr>, m: Msg, c': Cluster)
    requires Symmetric(r.Graph()) && Loopless(r.Graph()) && AcyclicAt(r.Graph(), r.origin)
    requires CopiesRouted(r, c, handled) && FrontierCovered(r, c, handled) && r.say.Say?
    requires m in c.net && CopyOf(r, m) && Forwarded(r, c, m, c')
    ensures CopiesRouted(r, c', handled + {m.dst}) && FrontierCovered(r, c', handled + {m.dst})
  {
    forall x | x in c'.net && CopyOf(r, x)
      ensures c'.net[x] == 1
      ensures Ahead(r.Graph(), r.origin, x.src, x.dst) && x.src in handled + {m.dst} && x.dst !in handled + {m.dst}
    {
      ForwardedRoute(r, c, handled, m, c', x);
    }
    forall u, v | Ahead(r.Graph(), r.origin, u, v)
      ensures v in handled + {m.dst} ==> u in handled + {m.dst}
      ensures u in handled + {m.dst} && v !in handled + {m.dst} ==> Msg(u, v, r.chan, r.say) in c'.net
    {
      ForwardedFrontier(r, c, handled, m, c', u, v);
    }
  }

  lemma CopyKeepsOnly(r: Round, c: Cluster, handled: set<Addr>, m: Msg)
    requires r.Valid() && Flooding(r, c, handled) && m in c.net && m.body.Say?
    ensures Allowed(c, Deliver(m)) && OnlyCopies(r, After(c, Deliver(m)))
  {
    CopyArrives(r, c, handled, m);
    var e := EffectOf(c, Deliver(m));
    forall x | x in After(c, Deliver(m)).net && x.body.Say? ensures CopyOf(r, x) {
      Posted(c.net - multiset{m}, e.msgs, x);
      assert x in c.net || x in e.msgs;
    }
  }

  lemma CopyKeepsServers(r: Round, c: Cluster, handled: set<Addr>, n: Addr, c': Cluster)
    requires n in c.servers && n in r.Graph() && n !in handled && n != r.origin
    requires r.chan in c.servers[n].channels
    requires c.servers[n].channels[r.chan] == Channel(r.Users(n), r.Graph()[n], {})
    requires c'.servers == c.servers[n := Pruned(n, c.servers[n]).server]
    requires forall v :: v in c.servers ==> ServerAsExpected(r, c, handled, v)
    ensures forall v :: v in c'.servers ==> ServerAsExpected(r, c', handled + {n}, v)
  {
    forall v | v in c'.servers ensures ServerAsExpected(r, c', handled + {n}, v) {
      assert ServerAsExpected(r, c, handled, v);
    }
  }

  lemma CopyKeepsLeaves(r: Round, c: Cluster, handled: set<Addr>, m: Msg)
    requires r.Valid() && Flooding(r, c, handled) && m in c.net && m.body.Say?
    ensures Allowed(c, Deliver(m)) && LeavesFromLeaves(r, After(c, Deliver(m)), handled + {m.dst})
  {
    CopyArrives(r, c, handled, m);
    AheadUnique(r.Graph(), r.origin, m.src, m.src, m.dst) by { RoundShape(r); }
    var c', e := After(c, Deliver(m)), EffectOf(c, Deliver(m));
    forall x | x in c'.net
      ensures !x.body.Join?
      ensures x.body.Leave? && x.chan == r.chan ==>
        r.Leaf(x.src) && x.src in handled + {m.dst} && x.dst in r.Graph()[x.src]
    {
      Posted(c.net - multiset{m}, e.msgs, x);
      if x in e.msgs {
        assert x in Broadcast(m.dst, r.Graph()[m.dst] - {m.src}, r.chan, r.say)
          || x in LeaveMsgs(m.dst, c.servers[m.dst].channels);
      } else {
        assert x in c.net;
      }
    }
  }

  lemma MoreTexts(r: Round, handled: set<Addr>, n: Addr)
    requires n !in handled
    ensures multiset(r.TextsAt(handled + {n})) ==
      multiset(r.TextsAt(handled)) + multiset(Texts(n, r.Users(n), r.chan, r.SayWho(), r.SayText()))
  {
    var more := Texts(n, r.Users(n), r.chan, r.SayWho(), r.SayText());
    assert r.TextsAt(handled + {n}) == r.TextsAt(handled) + more;
    assert r.TextsAt(handled) !! more;
  }

  lemma CopyEffect(r: Round, c: Cluster, handled: set<Addr>, m: Msg)
    requires r.Valid() && Flooding(r, c, handled) && m in c.net && m.body.Say?
    ensures Allowed(c, Deliver(m))
    ensures After(c, Deliver(m)).servers == c.servers[m.dst := Pruned(m.dst, c.servers[m.dst]).server]
    ensures After(c, Deliver(m)).texts ==
      c.texts + multiset(Texts(m.dst, r.Users(m.dst), r.chan, r.SayWho(), r.SayText()))
  {
    CopyArrives(r, c, handled, m);
  }

  lemma CopyReachesServer(r: Round, c: Cluster, handled: set<Addr>, m: Msg)
    requires r.Valid() && Flooding(r, c, handled) && m in c.net && m.body.Say?
    ensures m.dst in c.servers && m.dst in r.Component() && m.dst in r.Graph()
    ensures m.dst !in handled && m.dst != r.origin
    ensures Ahead(r.Graph(), r.origin, m.src, m.dst)
    ensures r.chan in c.servers[m.dst].channels
    ensures c.servers[m.dst].channels[r.chan] == Channel(r.Users(m.dst), r.Graph()[m.dst], {})
  {
    RoundShape(r);
    CopyArrives(r, c, handled, m);
    AheadUnique(r.Graph(), r.origin, m.src, m.src, m.dst);
  }

  lemma CopyKeepsFlooding(r: Round, c: Cluster, handled: set<Addr>, m: Msg)
    requires r.Valid() && Flooding(r, c, handled) && m in c.net && m.body.Say?
    ensures m.dst !in handled
    ensures Allowed(c, Deliver(m)) && Flooding(r, After(c, Deliver(m)), handled + {m.dst})
  {
    hide After, Allowed, Pruned, Ahead, AcyclicAt, Symmetric, Loopless, Settled, Round.Component, Round.TextsAt;
    hide CopiesRouted, FrontierCovered, LeavesFromLeaves, OnlyCopies, CopyOf, ServerAsExpected, Forwarded;
    CopyIsCopy(r, c, handled, m);
    CopyReachesServer(r, c, handled, m);
    CopyForwards(r, c, handled, m);
    CopyEffect(r, c, handled, m);
    RoundShape(r);
    var c' := After(c, Deliver(m));
    CopyKeepsRouting(r, c, handled, m, c');
    CopyKeepsServers(r, c, handled, m.dst, c');
    CopyKeepsLeaves(r, c, handled, m);
    CopyKeepsOnly(r, c, handled, m);
    MoreTexts(r, handled, m.dst);
  }

  // A leave only takes a dropped leaf off its predecessor's list.
  lemma LeaveKeepsServers(r: Round, c: Cluster, handled: set<Addr>, m: Msg, c': Cluster)
    requires m.dst in c.servers && c'.servers == c.servers[m.dst := OnLeave(c.servers[m.dst], m.src, m.chan).server]
    requires m.chan == r.chan ==> m.dst in handled && m.src in handled && r.Leaf(m.src)
    requires forall v :: v in c.servers ==> ServerAsExpected(r, c, handled, v)
    ensures forall v :: v in c'.servers ==> ServerAsExpected(r, c', handled, v)
  {
    forall v | v in c'.servers ensures ServerAsExpected(r, c', handled, v) {
      assert ServerAsExpected(r, c, handled, v);
    }
  }

  lemma LeaveComesHome(r: Round, c: Cluster, handled: set<Addr>, m: Msg)
    requires r.Valid() && Flooding(r, c, handled) && m in c.net && m.body.Leave? && m.chan == r.chan
    ensures m.dst in handled && m.src in handled && r.Leaf(m.src)
  {
    var g, o := r.Graph(), r.origin;
    RoundShape(r);
    var p := AheadExists(g, o, m.src);
    AheadEdge(g, o, p, m.src);
    assert Edge(g, m.src, p);
    SoleElement(g[m.src], p, m.dst);
  }

  lemma LeaveKeepsNet(r: Round, c: Cluster, handled: set<Addr>, m: Msg, c': Cluster)
    requires CopiesRouted(r, c, handled) && FrontierCovered(r, c, handled) && LeavesFromLeaves(r, c, handled)
    requires m.body.Leave? && r.say.Say? && c'.net == c.net - multiset{m}
    ensures CopiesRouted(r, c', handled) && FrontierCovered(r, c', handled) && LeavesFromLeaves(r, c', handled)
    ensures OnlyCopies(r, c) ==> OnlyCopies(r, c')
  {
    assert forall x :: x in c'.net ==> x in c.net;
    assert forall x: Msg :: x.body.Say? ==> c'.net[x] == c.net[x];
  }

  lemma LeaveKeepsFlooding(r: Round, c: Cluster, handled: set<Addr>, m: Msg)
    requires r.Valid() && Flooding(r, c, handled) && Allowed(c, Deliver(m)) && m.body.Leave?
    ensures Flooding(r, After(c, Deliver(m)), handled)
  {
    hide ServerAsExpected, CopiesRouted, FrontierCovered, LeavesFromLeaves, OnlyCopies, Settled, AcyclicAt;
    if m.chan == r.chan {
      LeaveComesHome(r, c, handled, m);
    }
    var c' := After(c, Deliver(m));
    assert c'.net == c.net - multiset{m};
    LeaveKeepsNet(r, c, handled, m, c');
    LeaveKeepsServers(r, c, handled, m, c');
  }

  lemma SoleElement<T>(s: set<T>, a: T, b: T)
    requires a in s && b in s && |s| <= 1
    ensures a == b
  {
    if a != b {
      SubsetSize({a, b}, s);
    }
  }

  // ----------------------------------------------------------- whole rounds

  ghost function Handled(o: Addr, steps: seq<Step>): set<Addr> {
    if steps == [] then {o}
    else
      var n := |steps| - 1;
      Handled(o, steps[..n]) + if IsCopy(steps[n]) then {steps[n].msg.dst} else {}
  }

  predicate IsCopy(step: Step) {
    step.Deliver? && step.msg.body.Say?
  }

  // How often the run hands the say to server `v`.
  ghost function TimesHandled(steps: seq<Step>, v: Addr): nat {
    if steps == [] then 0
    else
      var n := |steps| - 1;
      TimesHandled(steps[..n], v) + if IsCopy(steps[n]) && steps[n].msg.dst == v then 1 else 0
  }

  // The number of inter-server copies the run delivers.
  ghost function Copies(steps: seq<Step>): nat {
    if steps == [] then 0 else Copies(steps[..|steps| - 1]) + if IsCopy(steps[|steps| - 1]) then 1 else 0
  }

  lemma DeliveryKeepsFlooding(r: Round, c: Cluster, handled: set<Addr>, step: Step)
    requires r.Valid() && Flooding(r, c, handled) && Allowed(c, step) && step.Deliver?
    ensures IsCopy(step) ==> step.msg.dst !in handled
    ensures Flooding(r, After(c, step), handled + if IsCopy(step) then {step.msg.dst} else {})
  {
    if IsCopy(step) {
      CopyKeepsFlooding(r, c, handled, step.msg);
    } else {
      assert step.msg in c.net;
      LeaveKeepsFlooding(r, c, handled, step.msg);
      assert handled + {} == handled;
    }
  }

  lemma {:induction false} RunFloods(r: Round, c: Cluster, steps: seq<Step>)
    requires r.Valid() && Flooding(r, c, {r.origin}) && Run(c, steps) && AllDeliveries(steps)
    ensures Flooding(r, End(c, steps), Handled(r.origin, steps))
    decreases |steps|
  {
    hide Round.Valid, Flooding, Allowed, After, IsCopy;
    if steps != [] {
      var n := |steps| - 1;
      RunFloods(r, c, steps[..n]);
      DeliveryKeepsFlooding(r, End(c, steps[..n]), Handled(r.origin, steps[..n]), steps[n]);
    }
  }

  lemma {:induction false} RunCounts(r: Round, c: Cluster, steps: seq<Step>)
    requires r.Valid() && Flooding(r, c, {r.origin}) && Run(c, steps) && AllDeliveries(steps)
    ensures Copies(steps) == |Handled(r.origin, steps)| - 1
    ensures r.origin in Handled(r.origin, steps)
    ensures forall v :: TimesHandled(steps, v) == if v in Handled(r.origin, steps) && v != r.origin then 1 else 0
    decreases |steps|
  {
    hide Round.Valid, Flooding, Allowed, After, IsCopy;
    if steps != [] {
      var n := |steps| - 1;
      RunCounts(r, c, steps[..n]);
      RunFloods(r, c, steps[..n]);
      DeliveryKeepsFlooding(r, End(c, steps[..n]), Handled(r.origin, steps[..n]), steps[n]);
    }
  }

  /** Whatever has been delivered so far, no handler follows a null pointer next:
      every copy in flight finds its channel. */
  lemma NoLostChannel(c: Cluster, step: Step, steps: seq<Step>, m: Msg)
    requires Settled(c) && Allowed(c, step) && step.ClientSay? && AcyclicAt(Listing(c, step.chan), step.at)
    requires Run(After(c, step), steps) && AllDeliveries(steps)
    requires m in End(After(c, step), steps).net
    ensures Allowed(End(After(c, step), steps), Deliver(m))
  {
    hide After, AcyclicAt, CopiesRouted, FrontierCovered, LeavesFromLeaves, OnlyCopies, ServerAsExpected;
    var r := Opened(c, step);
    OpeningFloods(c, step);
    RunFloods(r, After(c, step), steps);
    var c' := End(After(c, step), steps);
    StepKeepsWellFormed(c, step);
    RunKeepsWellFormed(After(c, step), steps);
    assert Edge(Topology(c'), m.src, m.dst);
    assert Edge(Topology(c'), m.dst, m.src);
    if m.body.Say? {
      CopyArrives(r, c', Handled(r.origin, steps), m);
    }
  }

  lemma FloodComplete(r: Round, c: Cluster, handled: set<Addr>)
    requires r.Valid() && Flooding(r, c, handled) && Drained(c)
    ensures handled == r.Component()
  {
    forall v | v in r.Component() ensures v in handled {
      ReachInduction(r.Graph(), r.origin, v, handled);
    }
  }

  /** Exactly-once broadcast. When the round has drained, every other server of
      the component has handled the say once and no other server at all; every
      channel user at every one of them has been sent the text once, and nobody
      else; and this took one inter-server copy per server. */
  lemma ExactlyOnce(c: Cluster, step: Step, steps: seq<Step>)
    requires Settled(c) && Allowed(c, step) && step.ClientSay? && AcyclicAt(Listing(c, step.chan), step.at)
    requires Run(After(c, step), steps) && AllDeliveries(steps) && Drained(End(After(c, step), steps))
    ensures
      var r := Opened(c, step);
      && (forall v :: TimesHandled(steps, v) == if v in r.Component() && v != step.at then 1 else 0)
      && Copies(steps) == |r.Component()| - 1
      && End(After(c, step), steps).texts == c.texts + multiset(r.TextsAt(r.Component()))
  {
    var r := Opened(c, step);
    OpeningFloods(c, step);
    RunFloods(r, After(c, step), steps);
    RunCounts(r, After(c, step), steps);
    FloodComplete(r, End(After(c, step), steps), Handled(step.at, steps));
  }

  /** Text by text: each channel user at a server of the component has been sent the
      text once, and no other text has been sent. */
  lemma EachHearsOnce(c: Cluster, step: Step, steps: seq<Step>, t: Text)
    requires Settled(c) && Allowed(c, step) && step.ClientSay? && AcyclicAt(Listing(c, step.chan), step.at)
    requires Run(After(c, step), steps) && AllDeliveries(steps) && Drained(End(After(c, step), steps))
    ensures
      End(After(c, step), steps).texts[t] == c.texts[t] +
        if t.chan == step.chan && t.who == UserAt(c.servers[step.at], step.addr).name && t.text == step.text
          && Reaches(Listing(c, step.chan), step.at, t.server)
          && Holds(c, t.server, step.chan) && t.client in c.servers[t.server].channels[step.chan].users
        then 1 else 0
  {
    hide Settled, AcyclicAt, After, Run, End, Reaches, AllDeliveries;
    var r := Opened(c, step);
    ExactlyOnce(c, step, steps);
    assert t in r.TextsAt(r.Component()) <==>
      t.server in r.Component() && t.client in r.Users(t.server) && t.chan == r.chan
      && t.who == r.SayWho() && t.text == r.SayText();
  }

  lemma RunCons(c: Cluster, step: Step, steps: seq<Step>)
    requires Allowed(c, step) && Run(After(c, step), steps)
    ensures Run(c, [step] + steps) && End(c, [step] + steps) == End(After(c, step), steps)
  {
    hide Allowed, After, Run, End;
    RunOne(c, step);
    RunConcat(c, [step], steps);
  }

  lemma FloodingIsQuiet(r: Round, c: Cluster, handled: set<Addr>, step: Step)
    requires Flooding(r, c, handled) && Allowed(c, step) && step.Deliver?
    ensures Quiet(step)
  {
    assert step.msg in c.net;
  }

  lemma RoundIsQuiet(c: Cluster, step: Step, steps: seq<Step>)
    requires Settled(c) && Allowed(c, step) && step.ClientSay? && AcyclicAt(Listing(c, step.chan), step.at)
    requires Run(After(c, step), steps) && AllDeliveries(steps)
    ensures AllQuiet([step] + steps)
  {
    hide Settled, Allowed, After, AcyclicAt, Round.Valid, Flooding;
    var r := Opened(c, step);
    OpeningFloods(c, step);
    forall i | 0 <= i < |steps| ensures Quiet(steps[i]) {
      RunPrefix(After(c, step), steps, i + 1);
      assert steps[..i + 1][..i] == steps[..i];
      RunFloods(r, After(c, step), steps[..i]);
      FloodingIsQuiet(r, End(After(c, step), steps[..i]), Handled(step.at, steps[..i]), steps[i]);
    }
  }

  /** What a drained round leaves: exactly the user-less leaf servers other than
      the origin have dropped the channel, everyone else keeps its users and
      lists exactly its old neighbours that stay, and the cluster is settled. */
  lemma OnlyLeavesDrop(c: Cluster, step: Step, steps: seq<Step>)
    requires Settled(c) && Allowed(c, step) && step.ClientSay? && AcyclicAt(Listing(c, step.chan), step.at)
    requires Run(After(c, step), steps) && AllDeliveries(steps) && Drained(End(After(c, step), steps))
    ensures Settled(End(After(c, step), steps))
    ensures
      var r, c' := Opened(c, step), End(After(c, step), steps);
      var gone := set v | v in r.Component() && r.Leaf(v);
      && Listing(c', step.chan).Keys == r.Graph().Keys - gone
      && (forall v :: v in Listing(c', step.chan) ==>
            && Listing(c', step.chan)[v] == r.Graph()[v] - gone
            && c'.servers[v].channels[step.chan].users == r.Users(v))
  {
    var r, c' := Opened(c, step), End(After(c, step), steps);
    OpeningFloods(c, step);
    RunFloods(r, After(c, step), steps);
    FloodComplete(r, c', Handled(step.at, steps));
    RunCons(c, step, steps);
    RoundIsQuiet(c, step, steps);
    forall chan ensures Symmetric(Listing(c', chan)) {
      DrainedCore(c, [step] + steps, chan);
    }
    RunKeepsWellFormed(c, [step] + steps);
    SettledAfterFlood(r, c');
  }

  lemma SettledAfterFlood(r: Round, c: Cluster)
    requires r.Valid() && Flooding(r, c, r.Component()) && Symmetric(Listing(c, r.chan))
    ensures
      var gone := set v | v in r.Component() && r.Leaf(v);
      && Listing(c, r.chan).Keys == r.Graph().Keys - gone
      && (forall v :: v in Listing(c, r.chan) ==>
            && Listing(c, r.chan)[v] == r.Graph()[v] - gone
            && c.servers[v].channels[r.chan].users == r.Users(v))
  {
    var g, g' := r.Graph(), Listing(c, r.chan);
    var gone := set v | v in r.Component() && r.Leaf(v);
    forall v ensures v in g' <==> v in g && v !in gone {
      if v in c.servers {
        assert ServerAsExpected(r, c, r.Component(), v);
      }
    }
    forall v | v in g' ensures g'[v] == g[v] - gone && c.servers[v].channels[r.chan].users == r.Users(v) {
      assert ServerAsExpected(r, c, r.Component(), v);
      forall x | x in g'[v] ensures x !in gone {
        assert Edge(g', v, x) && Edge(g', x, v);
      }
    }
  }
}
