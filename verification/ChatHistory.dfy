/**
 What a client of the single server can expect, told from the requests served.

 A name is in a channel exactly when a client of that name joined it and none of
 that name has left it since, whoever logged in or out meanwhile; a say goes, once
 each, to the clients then logged in under such names.
*/
module ChatHistory {
  import opened Addresses
  import opened ChatServer
  import opened Membership
  import P = Protocol

  // ----------------------------------------------------------------- one request

  lemma NameMeans(clients: set<P.Client>, x: P.Client)
    requires Separate(clients) && x in clients
    ensures LoggedIn(clients, x.addr) && NameAt(clients, x.addr) == x.name
  {
    assert P.Client(NameAt(clients, x.addr), x.addr) in clients;
  }

  lemma LoginServed(r: Roster, addr: Addr, name: string)
    ensures
      var after := Served(r, Login(addr, name));
      && (forall x :: x in after.clients <==>
            x == P.Client(name, addr) || (x in r.clients && x.name != name && x.addr != addr))
      && after.subs == r.subs
  {
  }

  lemma LogoutServed(r: Roster, addr: Addr)
    ensures
      var after := Served(r, Logout(addr));
      && (forall x :: x in after.clients <==> x in r.clients && x.addr != addr)
      && after.subs == r.subs
  {
  }

  // The client joins or leaves the channel under this name.
  predicate Subscribes(r: Roster, q: Request, chan: string, name: string) {
    q.JoinChannel? && q.chan == chan && P.Client(name, q.addr) in r.clients
  }

  predicate Unsubscribes(r: Roster, q: Request, chan: string, name: string) {
    q.LeaveChannel? && q.chan == chan && P.Client(name, q.addr) in r.clients
  }

  // No stored channel is empty, no two clients share a name or an address.
  ghost predicate Proper(r: Roster) {
    Separate(r.clients) && forall c :: c in r.subs ==> r.subs[c] != {}
  }

  lemma ServedKeepsProper(r: Roster, q: Request)
    requires Proper(r)
    ensures Proper(Served(r, q))
  {
    if q.JoinChannel? && LoggedIn(r.clients, q.addr) {
      var after := Served(r, q).subs;
      assert NameAt(r.clients, q.addr) in after[q.chan];
    } else if q.LeaveChannel? && LoggedIn(r.clients, q.addr) {
      LeftMeans(r.subs, q.chan, NameAt(r.clients, q.addr));
    }
  }

  /** The exact effect of any request on anybody's membership. */
  lemma MemberAfter(r: Roster, q: Request, chan: string, name: string)
    requires Proper(r)
    ensures Member(Served(r, q), chan, name) <==>
      Subscribes(r, q, chan, name) || (Member(r, chan, name) && !Unsubscribes(r, q, chan, name))
    ensures q.JoinChannel? || q.LeaveChannel? || q.SayIn? || q.Who? ==> Served(r, q).clients == r.clients
  {
    hide Separate;
    if (q.JoinChannel? || q.LeaveChannel?) && LoggedIn(r.clients, q.addr) {
      var x := P.Client(NameAt(r.clients, q.addr), q.addr);
      OnlyName(r.clients, x, name);
      JoinedMeans(r.subs, q.chan, x.name);
      LeftMeans(r.subs, q.chan, x.name);
    }
  }

  lemma OnlyName(clients: set<P.Client>, x: P.Client, name: string)
    requires Separate(clients) && x in clients
    ensures P.Client(name, x.addr) in clients <==> name == x.name
  {
  }

  // -------------------------------------------------------------- whole histories

  ghost predicate SubscribesAt(r: Roster, qs: seq<Request>, i: nat, chan: string, name: string)
    requires ServableAll(r, qs) && i < |qs|
  {
    ServablePrefix(r, qs, i);
    Subscribes(ServedAll(r, qs[..i]), qs[i], chan, name)
  }

  ghost predicate UnsubscribesAt(r: Roster, qs: seq<Request>, i: nat, chan: string, name: string)
    requires ServableAll(r, qs) && i < |qs|
  {
    ServablePrefix(r, qs, i);
    Unsubscribes(ServedAll(r, qs[..i]), qs[i], chan, name)
  }

  ghost predicate StaysFrom(r: Roster, qs: seq<Request>, i: nat, chan: string, name: string)
    requires ServableAll(r, qs)
  {
    forall j :: i <= j < |qs| ==> !UnsubscribesAt(r, qs, j, chan, name)
  }

  // The name joined during the run, or was a member before, and has not left since.
  ghost predicate Subscribed(r: Roster, qs: seq<Request>, chan: string, name: string)
    requires ServableAll(r, qs)
  {
    || (Member(r, chan, name) && StaysFrom(r, qs, 0, chan, name))
    || (exists i :: 0 <= i < |qs| && SubscribesAt(r, qs, i, chan, name) && StaysFrom(r, qs, i + 1, chan, name))
  }

  lemma SubscribedSnoc(r: Roster, qs: seq<Request>, chan: string, name: string)
    requires ServableAll(r, qs) && qs != []
    ensures ServableAll(r, qs[..|qs| - 1])
    ensures
      var n := |qs| - 1;
      Subscribed(r, qs, chan, name) <==>
        Subscribes(ServedAll(r, qs[..n]), qs[n], chan, name)
        || (Subscribed(r, qs[..n], chan, name) && !Unsubscribes(ServedAll(r, qs[..n]), qs[n], chan, name))
  {
    hide Subscribes, Unsubscribes, Member, ServableAll, ServedAll;
    var n := |qs| - 1;
    ServablePrefix(r, qs, n);
    forall i | 0 <= i < n
      ensures SubscribesAt(r, qs, i, chan, name) <==> SubscribesAt(r, qs[..n], i, chan, name)
      ensures UnsubscribesAt(r, qs, i, chan, name) <==> UnsubscribesAt(r, qs[..n], i, chan, name)
    {
      assert qs[..n][..i] == qs[..i];
    }
    forall i | 0 <= i <= n
      ensures StaysFrom(r, qs, i, chan, name) <==>
                StaysFrom(r, qs[..n], i, chan, name) && !UnsubscribesAt(r, qs, n, chan, name)
    {
    }
    assert StaysFrom(r, qs, n + 1, chan, name);
    assert SubscribesAt(r, qs, n, chan, name) <==> Subscribes(ServedAll(r, qs[..n]), qs[n], chan, name);
    if i :| 0 <= i < n && SubscribesAt(r, qs[..n], i, chan, name) && StaysFrom(r, qs[..n], i + 1, chan, name) {
      assert SubscribesAt(r, qs, i, chan, name);
      assert StaysFrom(r, qs, i + 1, chan, name) <==> !UnsubscribesAt(r, qs, n, chan, name);
    }
    if i :| 0 <= i < |qs| && SubscribesAt(r, qs, i, chan, name) && StaysFrom(r, qs, i + 1, chan, name) {
      assert i < n ==> SubscribesAt(r, qs[..n], i, chan, name) && StaysFrom(r, qs[..n], i + 1, chan, name);
    }
  }

  lemma AtFirst(r: Roster, chan: string, name: string)
    ensures Subscribed(r, [], chan, name) <==> Member(r, chan, name)
  {
  }

  /** After any run of requests the members of a channel are those the history of
      joins and leaves says. */
  lemma {:induction false} MembersAreSubscribers(r: Roster, qs: seq<Request>, chan: string, name: string)
    requires Proper(r) && ServableAll(r, qs)
    ensures Proper(ServedAll(r, qs)) && (Member(ServedAll(r, qs), chan, name) <==> Subscribed(r, qs, chan, name))
    decreases |qs|
  {
    hide Proper, Member, Subscribed, Subscribes, Unsubscribes, Served, Servable;
    if qs == [] {
      AtFirst(r, chan, name);
    } else {
      var n := |qs| - 1;
      SubscribedSnoc(r, qs, chan, name);
      MembersAreSubscribers(r, qs[..n], chan, name);
      MemberAfter(ServedAll(r, qs[..n]), qs[n], chan, name);
      ServedKeepsProper(ServedAll(r, qs[..n]), qs[n]);
    }
  }

  // -------------------------------------------------------------------- answers

  // Somebody logged in at the delivery's address is a member.
  ghost predicate Reaches(r: Roster, chan: string, to: Addr) {
    exists y :: y in r.clients && y.addr == to && Member(r, chan, y.name)
  }

  /** The answer to a member's say: each text once to the address of each member who
      is logged in, and none to anybody else. */
  lemma SayAnswered(r: Roster, x: P.Client, chan: string, text: string, reply: Reply, d: Delivery)
    requires Separate(r.clients) && x in r.clients && Answers(r, SayIn(x.addr, chan, text), reply)
    ensures chan !in r.subs ==> reply == NoSuchChannel
    ensures chan in r.subs && !Member(r, chan, x.name) ==> reply == NotAMember
    ensures Member(r, chan, x.name) ==> reply.Sent?
    ensures Member(r, chan, x.name) ==>
      multiset(reply.texts)[d] ==
        if d.chan == chan && d.who == x.name && d.text == text && Reaches(r, chan, d.to) then 1 else 0
  {
    hide Separate;
    NameMeans(r.clients, x);
    if Member(r, chan, x.name) {
      DeliveredTo(r, chan, x.name, text, d);
    }
  }

  lemma DeliveredTo(r: Roster, chan: string, who: string, text: string, d: Delivery)
    requires chan in r.subs
    ensures d in Deliveries(r.clients, r.subs[chan], chan, who, text) <==>
      d.chan == chan && d.who == who && d.text == text && Reaches(r, chan, d.to)
  {
  }

  lemma StrangerAnswered(r: Roster, q: Request, reply: Reply)
    requires Answers(r, q, reply) && forall x :: x in r.clients ==> x.addr != q.addr
    ensures q.JoinChannel? || q.LeaveChannel? || q.SayIn? ==> reply == NotLoggedIn && Served(r, q) == r
  {
  }

  lemma WhoAnswered(r: Roster, addr: Addr, chan: string, reply: Reply, name: string)
    requires Answers(r, Who(addr, chan), reply)
    ensures chan !in r.subs ==> reply == NoSuchChannel
    ensures chan in r.subs ==> reply.Members?
    ensures chan in r.subs ==> multiset(reply.names)[name] == if Member(r, chan, name) then 1 else 0
  {
  }

  /** The say that follows any run of requests: one text to each address at which a
      subscribed name is then logged in, and no other. */
  lemma SayReachesSubscribers(r: Roster, qs: seq<Request>, x: P.Client, chan: string, text: string, reply: Reply,
                              d: Delivery)
    requires Proper(r) && ServableAll(r, qs) && x in ServedAll(r, qs).clients && Subscribed(r, qs, chan, x.name)
    requires Answers(ServedAll(r, qs), SayIn(x.addr, chan, text), reply)
    ensures reply.Sent? && multiset(reply.texts)[d] ==
      if d.chan == chan && d.who == x.name && d.text == text
        && exists y :: y in ServedAll(r, qs).clients && y.addr == d.to && Subscribed(r, qs, chan, y.name)
      then 1 else 0
  {
    hide Separate, Member, Subscribed, ServableAll, ServedAll, Answers;
    var after := ServedAll(r, qs);
    forall name {
      MembersAreSubscribers(r, qs, chan, name);
    }
    SayAnswered(after, x, chan, text, reply, d);
    assert Reaches(after, chan, d.to) <==>
      exists y :: y in after.clients && y.addr == d.to && Subscribed(r, qs, chan, y.name);
  }
}
