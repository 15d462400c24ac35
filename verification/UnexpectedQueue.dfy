/** Accepting a connection from a given peer with a given tag: connections that arrive earlier and do not match are put
    aside, in order, for later. */
module UnexpectedQueue {
  import opened Seqs

  datatype Conn = Conn(peer: int, tag: int, sock: int)

  /** A negative peer accepts any. */
  predicate Matches(c: Conn, peer: int, tag: int) {
    (peer < 0 || c.peer == peer) && c.tag == tag
  }

  /** Position of the first match, |s| when there is none. */
  function FirstMatch(s: seq<Conn>, peer: int, tag: int): (i: nat)
    ensures i <= |s| && (i < |s| ==> Matches(s[i], peer, tag))
    ensures forall j :: 0 <= j < i ==> !Matches(s[j], peer, tag)
  {
    if s == [] then 0 else if Matches(s[0], peer, tag) then 0 else 1 + FirstMatch(s[1..], peer, tag)
  }

  /** The first match is the one connection with the tag, from the peer or with any peer allowed, that none like it
      precedes. */
  lemma FirstMatchIs(s: seq<Conn>, peer: int, tag: int, i: nat)
    requires i < |s|
    ensures i == FirstMatch(s, peer, tag) <==>
              && s[i].tag == tag && (peer < 0 || s[i].peer == peer)
              && forall j :: 0 <= j < i && s[j].tag == tag ==> peer >= 0 && s[j].peer != peer
  {
  }

  /** The connections of one peer with one tag, in order. */
  function Stream(s: seq<Conn>, peer: int, tag: int): seq<Conn> {
    if s == [] then []
    else (if s[0].peer == peer && s[0].tag == tag then [s[0]] else []) + Stream(s[1..], peer, tag)
  }

  lemma {:induction false} StreamConcat(a: seq<Conn>, b: seq<Conn>, peer: int, tag: int)
    ensures Stream(a + b, peer, tag) == Stream(a, peer, tag) + Stream(b, peer, tag)
  {
    if a == [] {
      assert a + b == b;
    } else {
      assert (a + b)[1..] == a[1..] + b;
      StreamConcat(a[1..], b, peer, tag);
    }
  }

  lemma {:induction false} StreamNone(s: seq<Conn>, peer: int, tag: int)
    requires forall c :: c in s ==> !(c.peer == peer && c.tag == tag)
    ensures Stream(s, peer, tag) == []
  {
    if s != [] {
      assert s[0] in s && forall c :: c in s[1..] ==> c in s;
      StreamNone(s[1..], peer, tag);
    }
  }

  /** Taking the first match out takes the front of its own stream and leaves every other stream alone. */
  lemma TakingKeepsStreams(s: seq<Conn>, peer: int, tag: int, p: int, t: int)
    requires FirstMatch(s, peer, tag) < |s|
    ensures
      var i := FirstMatch(s, peer, tag);
      if s[i].peer == p && s[i].tag == t then Stream(s, p, t) == [s[i]] + Stream(Without(s, i), p, t)
      else Stream(s, p, t) == Stream(Without(s, i), p, t)
  {
    var i := FirstMatch(s, peer, tag);
    var c := s[i];
    var front, rest := s[..i], s[i + 1..];
    assert s == front + ([c] + rest) && [c][1..] == [];
    StreamConcat(front, [c] + rest, p, t);
    StreamConcat([c], rest, p, t);
    StreamConcat(front, rest, p, t);
    if c.peer == p && c.tag == t {
      StreamNone(front, p, t);
    }
  }

  // ---------------------------------------------------------------- the linked list

  /** An element of the list; next is the index of the following one, -1 at the end. */
  datatype Node = Node(conn: Conn, next: int)

  /** The list from head on runs through s. */
  ghost predicate ListOk(nodes: seq<Node>, head: int, s: seq<int>) {
    && Distinct(s) && head == (if s == [] then -1 else s[0]) && (forall i :: 0 <= i < |s| ==> 0 <= s[i] < |nodes|)
    && forall i: nat {:trigger After(s, i)} :: i < |s| ==> nodes[s[i]].next == After(s, i)
  }

  function Conns(nodes: seq<Node>, s: seq<int>): (c: seq<Conn>)
    requires forall i :: 0 <= i < |s| ==> 0 <= s[i] < |nodes|
    ensures |c| == |s| && forall i :: 0 <= i < |s| ==> c[i] == nodes[s[i]].conn
  {
    seq(|s|, i requires 0 <= i < |s| => nodes[s[i]].conn)
  }

  lemma LinkLast(nodes: seq<Node>, head: int, s: seq<int>, c: Conn)
    requires ListOk(nodes, head, s)
    ensures
      var x := |nodes|;
      var grown := nodes + [Node(c, -1)];
      var linked := if s == [] then grown else grown[s[|s| - 1] := grown[s[|s| - 1]].(next := x)];
      && ListOk(linked, if s == [] then x else head, s + [x])
      && Conns(linked, s + [x]) == Conns(nodes, s) + [c]
  {
    var x, grown, t := |nodes|, nodes + [Node(c, -1)], s + [|nodes|];
    var linked := if s == [] then grown else grown[s[|s| - 1] := grown[s[|s| - 1]].(next := x)];
    assert x !in s;
    forall i: nat | i < |t| ensures linked[t[i]].next == After(t, i) {
      if i < |s| {
        assert nodes[s[i]].next == After(s, i);
        assert i < |s| - 1 ==> s[i] != s[|s| - 1];
      }
    }
  }

  /** The nodes after the i-th of the list was passed over by the link before it. */
  function Spliced(nodes: seq<Node>, s: seq<int>, i: nat): seq<Node>
    requires i < |s| && forall i :: 0 <= i < |s| ==> 0 <= s[i] < |nodes|
  {
    if i == 0 then nodes else nodes[s[i - 1] := nodes[s[i - 1]].(next := nodes[s[i]].next)]
  }

  lemma Unlink(nodes: seq<Node>, head: int, s: seq<int>, i: nat)
    requires ListOk(nodes, head, s) && i < |s|
    ensures ListOk(Spliced(nodes, s, i), if i == 0 then nodes[s[i]].next else head, Without(s, i))
  {
    var t, spliced := Without(s, i), Spliced(nodes, s, i);
    WithoutMembers(s, i);
    assert nodes[s[i]].next == After(s, i);
    forall k: nat | k < |t| ensures spliced[t[k]].next == After(t, k) {
      var m := Skipping(i, k);
      AfterWithout(s, i, k);
      assert nodes[s[m]].next == After(s, m);
      assert i > 0 && m != i - 1 ==> s[m] != s[i - 1];
    }
  }

  lemma UnlinkConns(nodes: seq<Node>, s: seq<int>, i: nat)
    requires i < |s| && forall i :: 0 <= i < |s| ==> 0 <= s[i] < |nodes|
    ensures Conns(Spliced(nodes, s, i), Without(s, i)) == Without(Conns(nodes, s), i)
  {
  }

  /** A rank's list of connections put aside, and the connections waiting at its listening socket. */
  class Acceptor {
    var nodes: seq<Node>
    var unexpectedConnections: int
    var backlog: seq<Conn>
    ghost var list: seq<int>

    ghost predicate Valid()
      reads this
    {
      ListOk(nodes, unexpectedConnections, list)
    }

    /** The connections put aside, oldest first. */
    ghost function Aside(): (s: seq<Conn>)
      reads this
      requires Valid()
    {
      Conns(nodes, list)
    }

    constructor ()
      ensures Valid() && Aside() == [] && backlog == []
    {
      nodes, unexpectedConnections, backlog, list := [], -1, [], [];
    }

    /** A peer connects. */
    method Arrive(c: Conn)
      requires Valid()
      modifies this`backlog
      ensures Valid() && Aside() == old(Aside()) && backlog == old(backlog) + [c]
    {
      backlog := backlog + [c];
    }

    method Enqueue(c: Conn)
      requires Valid()
      modifies this`nodes, this`unexpectedConnections, this`list
      ensures Valid() && Aside() == old(Aside()) + [c]
    {
      LinkLast(nodes, unexpectedConnections, list, c);
      var unex := |nodes|;
      if unexpectedConnections == -1 {
        nodes := nodes + [Node(c, -1)];
        unexpectedConnections := unex;
      } else {
        var last := Last();
        nodes := nodes + [Node(c, -1)];
        nodes := nodes[last := nodes[last].(next := unex)];
      }
      list := list + [unex];
    }

    /** Walks to the end of the list. */
    method Last() returns (last: int)
      requires Valid() && unexpectedConnections != -1
      ensures list != [] && last == list[|list| - 1]
    {
      last := unexpectedConnections;
      ghost var i: nat := 0;
      assert nodes[list[i]].next == After(list, i);
      while nodes[last].next != -1
        invariant i < |list| && last == list[i] && nodes[last].next == After(list, i)
        decreases |list| - i
      {
        last, i := nodes[last].next, i + 1;
        assert nodes[list[i]].next == After(list, i);
      }
    }

    /** Takes the first match out of the list. */
    method Dequeue(peer: int, tag: int) returns (found: bool, c: Conn)
      requires Valid()
      modifies this`nodes, this`unexpectedConnections, this`list
      ensures Valid()
      ensures
        var i := FirstMatch(old(Aside()), peer, tag);
        && (found <==> i < |old(Aside())|)
        && (if found then c == old(Aside())[i] && Aside() == Without(old(Aside()), i) else Aside() == old(Aside()))
    {
      found, c := false, Conn(0, 0, 0);
      var elem, prev := unexpectedConnections, -1;
      ghost var i: nat := 0;
      while elem != -1
        invariant nodes == old(nodes) && unexpectedConnections == old(unexpectedConnections) && list == old(list)
        invariant i <= |list| && elem == (if i < |list| then list[i] else -1)
        invariant prev == if i == 0 then -1 else list[i - 1]
        invariant forall j :: 0 <= j < i ==> !Matches(Aside()[j], peer, tag)
        decreases |list| - i
      {
        assert nodes[list[i]].next == After(list, i);
        if Matches(nodes[elem].conn, peer, tag) {
          c := nodes[elem].conn;
          Splice(elem, prev, i);
          return true, c;
        }
        prev, elem, i := elem, nodes[elem].next, i + 1;
      }
    }

    /** Leads the link to elem, the i-th of the list, past it: that link is the head or belongs to prev. */
    method Splice(elem: int, prev: int, ghost i: nat)
      requires Valid() && i < |list| && elem == list[i] && prev == if i == 0 then -1 else list[i - 1]
      modifies this`nodes, this`unexpectedConnections, this`list
      ensures Valid() && Aside() == Without(old(Aside()), i)
    {
      Unlink(nodes, unexpectedConnections, list, i);
      UnlinkConns(nodes, list, i);
      if prev == -1 {
        unexpectedConnections := nodes[elem].next;
      } else {
        nodes := nodes[prev := nodes[prev].(next := nodes[elem].next)];
      }
      list := Without(list, i);
    }

    /** Looks at new connections, putting aside those that do not match. */
    method AcceptNew(peer: int, tag: int) returns (found: bool, c: Conn)
      requires Valid() && FirstMatch(Aside(), peer, tag) == |Aside()|
      modifies this
      ensures Valid() && AcceptedFrom(old(Aside() + backlog), peer, tag, found, c, Aside(), backlog)
    {
      ghost var arrived := Aside() + backlog;
      found, c := false, Conn(0, 0, 0);
      while backlog != [] && !found
        invariant Valid() && Looked(arrived, peer, tag, found, c, Aside(), backlog)
        decreases !found, |backlog|
      {
        LookFurther(arrived, peer, tag, Aside(), backlog, c);
        c := backlog[0];
        backlog := backlog[1..];
        found := Matches(c, peer, tag);
        if !found {
          Enqueue(c);
        }
      }
      LookedEnough(arrived, peer, tag, found, c, Aside(), backlog);
    }

    /** Accepts the oldest connection that matches, among all that have arrived; without one it has looked at all of
        them and goes on waiting. */
    method Accept(peer: int, tag: int) returns (found: bool, c: Conn)
      requires Valid()
      modifies this
      ensures Valid() && AcceptedFrom(old(Aside() + backlog), peer, tag, found, c, Aside(), backlog)
      ensures found ==> c.tag == tag && (peer < 0 || c.peer == peer)
      ensures !found ==> forall x :: x in old(Aside() + backlog) && x.tag == tag ==> peer >= 0 && x.peer != peer
    {
      FirstMatchConcat(Aside(), backlog, peer, tag);
      found, c := Dequeue(peer, tag);
      if !found {
        found, c := AcceptNew(peer, tag);
      }
    }
  }

  /** What was put aside does not match; together with the backlog, and the accepted one between them, it is all that
      arrived. */
  ghost predicate Looked(arrived: seq<Conn>, peer: int, tag: int, found: bool, c: Conn, aside: seq<Conn>,
                         backlog: seq<Conn>)
  {
    && (forall x :: x in aside ==> !Matches(x, peer, tag)) && (found ==> Matches(c, peer, tag))
    && arrived == aside + (if found then [c] else []) + backlog
  }

  lemma LookFurther(arrived: seq<Conn>, peer: int, tag: int, aside: seq<Conn>, backlog: seq<Conn>, c: Conn)
    requires Looked(arrived, peer, tag, false, c, aside, backlog) && backlog != []
    ensures
      var c', rest := backlog[0], backlog[1..];
      if Matches(c', peer, tag) then Looked(arrived, peer, tag, true, c', aside, rest)
      else Looked(arrived, peer, tag, false, c', aside + [c'], rest)
  {
    assert backlog == [backlog[0]] + backlog[1..];
  }

  lemma LookedEnough(arrived: seq<Conn>, peer: int, tag: int, found: bool, c: Conn, aside: seq<Conn>,
                     backlog: seq<Conn>)
    requires Looked(arrived, peer, tag, found, c, aside, backlog) && (found || backlog == [])
    ensures AcceptedFrom(arrived, peer, tag, found, c, aside, backlog)
  {
    assert forall j :: 0 <= j < |aside| ==> arrived[j] == aside[j] && aside[j] in aside;
    if found {
      assert arrived[|aside|] == c;
      assert Without(arrived, |aside|) == aside + backlog;
    }
  }

  /** The first match of what had arrived was accepted, and the rest is still there; or there is none, and everything
      has been put aside. */
  ghost predicate AcceptedFrom(arrived: seq<Conn>, peer: int, tag: int, found: bool, c: Conn, aside: seq<Conn>,
                               backlog: seq<Conn>)
  {
    var i := FirstMatch(arrived, peer, tag);
    && (found <==> i < |arrived|)
    && (if found then c == arrived[i] && aside + backlog == Without(arrived, i) else aside == arrived && backlog == [])
  }

  lemma {:induction false} FirstMatchConcat(a: seq<Conn>, b: seq<Conn>, peer: int, tag: int)
    ensures FirstMatch(a + b, peer, tag)
         == if FirstMatch(a, peer, tag) < |a| then FirstMatch(a, peer, tag) else |a| + FirstMatch(b, peer, tag)
  {
    if a == [] {
      assert a + b == b;
    } else {
      assert (a + b)[1..] == a[1..] + b;
      FirstMatchConcat(a[1..], b, peer, tag);
    }
  }

  /** Accepting never loses a connection and never changes the order of a peer's connections with one tag: what is
      accepted was the front of its stream. */
  lemma AcceptKeepsStreams(arrived: seq<Conn>, peer: int, tag: int)
    requires FirstMatch(arrived, peer, tag) < |arrived|
    ensures
      var i := FirstMatch(arrived, peer, tag);
      && multiset(arrived) == multiset(Without(arrived, i)) + multiset{arrived[i]}
      && forall p, t :: Stream(arrived, p, t)
           == (if arrived[i].peer == p && arrived[i].tag == t then [arrived[i]] else [])
             + Stream(Without(arrived, i), p, t)
  {
    var i := FirstMatch(arrived, peer, tag);
    assert arrived == arrived[..i] + [arrived[i]] + arrived[i + 1..];
    forall p, t
      ensures Stream(arrived, p, t)
        == (if arrived[i].peer == p && arrived[i].tag == t then [arrived[i]] else [])
          + Stream(Without(arrived, i), p, t)
    {
      TakingKeepsStreams(arrived, peer, tag, p, t);
    }
  }

  // ---------------------------------------------------------------- a whole run

  datatype Event = Arrives(c: Conn) | Accepts(peer: int, tag: int)

  /** What has arrived, what was accepted of it and what is still held, put aside or not. */
  datatype Queue = Queue(arrived: seq<Conn>, accepted: seq<Conn>, held: seq<Conn>)

  /** An accept takes the first match, if there is one. */
  function Step(q: Queue, e: Event): Queue {
    match e
    case Arrives(c) => Queue(q.arrived + [c], q.accepted, q.held + [c])
    case Accepts(peer, tag) =>
      var i := FirstMatch(q.held, peer, tag);
      if i < |q.held| then Queue(q.arrived, q.accepted + [q.held[i]], Without(q.held, i)) else q
  }

  function Steps(q: Queue, events: seq<Event>): Queue {
    if events == [] then q else Step(Steps(q, events[..|events| - 1]), events[|events| - 1])
  }

  /** Per peer and tag: what was accepted, followed by what is still held, is what arrived. */
  ghost predicate InOrder(accepted: seq<Conn>, held: seq<Conn>, arrived: seq<Conn>) {
    forall p, t {:trigger Stream(arrived, p, t)} :: Stream(arrived, p, t) == Stream(accepted, p, t) + Stream(held, p, t)
  }

  lemma ArriveKeepsOrder(accepted: seq<Conn>, held: seq<Conn>, arrived: seq<Conn>, c: Conn)
    requires InOrder(accepted, held, arrived)
    ensures InOrder(accepted, held + [c], arrived + [c])
  {
    forall p, t ensures Stream(arrived + [c], p, t) == Stream(accepted, p, t) + Stream(held + [c], p, t) {
      StreamConcat(arrived, [c], p, t);
      StreamConcat(held, [c], p, t);
    }
  }

  lemma AcceptKeepsOrder(accepted: seq<Conn>, held: seq<Conn>, arrived: seq<Conn>, peer: int, tag: int)
    requires InOrder(accepted, held, arrived) && FirstMatch(held, peer, tag) < |held|
    ensures
      var i := FirstMatch(held, peer, tag);
      InOrder(accepted + [held[i]], Without(held, i), arrived)
  {
    var i := FirstMatch(held, peer, tag);
    forall p, t ensures Stream(arrived, p, t) == Stream(accepted + [held[i]], p, t) + Stream(Without(held, i), p, t) {
      AcceptOrderAt(accepted, held, peer, tag, p, t);
    }
  }

  lemma AcceptOrderAt(accepted: seq<Conn>, held: seq<Conn>, peer: int, tag: int, p: int, t: int)
    requires FirstMatch(held, peer, tag) < |held|
    ensures
      var i := FirstMatch(held, peer, tag);
      Stream(accepted, p, t) + Stream(held, p, t) == Stream(accepted + [held[i]], p, t) + Stream(Without(held, i), p, t)
  {
    var c := held[FirstMatch(held, peer, tag)];
    TakingKeepsStreams(held, peer, tag, p, t);
    StreamConcat(accepted, [c], p, t);
    assert [c][1..] == [];
  }

  /** Nothing is lost, and each peer's connections with one tag are accepted in the order in which they arrived. */
  ghost predicate Kept(accepted: seq<Conn>, held: seq<Conn>, arrived: seq<Conn>) {
    InOrder(accepted, held, arrived) && multiset(arrived) == multiset(accepted) + multiset(held)
  }

  /** Nothing is lost by a step. */
  lemma StepKeeps(q: Queue, e: Event)
    requires Kept(q.accepted, q.held, q.arrived)
    ensures Kept(Step(q, e).accepted, Step(q, e).held, Step(q, e).arrived)
  {
    match e
    case Arrives(c) =>
      ArriveKeepsOrder(q.accepted, q.held, q.arrived, c);
    case Accepts(peer, tag) =>
      if FirstMatch(q.held, peer, tag) < |q.held| {
        AcceptKeepsOrder(q.accepted, q.held, q.arrived, peer, tag);
        AcceptKeepsStreams(q.held, peer, tag);
      }
  }

  /** Any sequence of arrivals and accepts: each takes place, and none loses or reorders anything. */
  method Run(events: seq<Event>) returns (accepted: seq<Conn>, arrived: seq<Conn>, ghost held: seq<Conn>)
    ensures Kept(accepted, held, arrived)
    ensures Queue(arrived, accepted, held) == Steps(Queue([], [], []), events)
  {
    var acceptor := new Acceptor();
    accepted, arrived := [], [];
    for k := 0 to |events|
      invariant fresh(acceptor) && acceptor.Valid() && Kept(accepted, acceptor.Aside() + acceptor.backlog, arrived)
      invariant Queue(arrived, accepted, acceptor.Aside() + acceptor.backlog) == Steps(Queue([], [], []), events[..k])
    {
      accepted, arrived := Act(acceptor, events[k], accepted, arrived);
      assert events[..k + 1][..k] == events[..k];
    }
    assert events[..|events|] == events;
    held := acceptor.Aside() + acceptor.backlog;
  }

  method Act(acceptor: Acceptor, e: Event, accepted: seq<Conn>, arrived: seq<Conn>)
    returns (accepted': seq<Conn>, arrived': seq<Conn>)
    requires acceptor.Valid() && Kept(accepted, acceptor.Aside() + acceptor.backlog, arrived)
    modifies acceptor
    ensures acceptor.Valid() && Kept(accepted', acceptor.Aside() + acceptor.backlog, arrived')
    ensures Queue(arrived', accepted', acceptor.Aside() + acceptor.backlog)
         == Step(Queue(arrived, accepted, old(acceptor.Aside() + acceptor.backlog)), e)
  {
    ghost var held := acceptor.Aside() + acceptor.backlog;
    accepted', arrived' := accepted, arrived;
    StepKeeps(Queue(arrived, accepted, held), e);
    match e {
      case Arrives(c) =>
        acceptor.Arrive(c);
        assert held + [c] == acceptor.Aside() + acceptor.backlog;
        arrived' := arrived + [c];
      case Accepts(peer, tag) =>
        var found, c := acceptor.Accept(peer, tag);
        if found {
          accepted' := accepted + [c];
        } else {
          assert acceptor.Aside() + acceptor.backlog == held;
        }
    }
  }
}
