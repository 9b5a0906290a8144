/** The multicast reader that stalls on a refused item: hmbdc/tips/rmcast/McRecvTransport.hpp, lines 93-149. */
module RecvTransport {
  import opened Common
  import opened Receiver
  import opened Sender
  import opened RecvSession

  /** Offers `items` in order until one is refused; what is not decided is held. */
  function Offer(t: Session, items: seq<UdpItem>): (r: (Session, seq<UdpItem>))
    requires |t.recv.arb.j| == 2
    ensures |r.0.recv.arb.j| == 2 && |r.1| <= |items|
    decreases |items|
  {
    if items == [] then (t, [])
    else if items[0].Ad? then Offer(t, items[1..])
    else
      var x := Receiver.Accept(t.recv, items[0]);
      var t' := Session(x.recv, t.sent + x.sent);
      if x.code == 0 then (t', items) else Offer(t', items[1..])
  }

  lemma OfferAd(t: Session, items: seq<UdpItem>)
    requires |t.recv.arb.j| == 2 && items != [] && items[0].Ad?
    ensures Offer(t, items) == Offer(t, items[1..])
  {
  }

  lemma OfferItem(t: Session, items: seq<UdpItem>, x: Receiver.Reaction)
    requires |t.recv.arb.j| == 2 && items != [] && !items[0].Ad? && x == Receiver.Accept(t.recv, items[0])
    ensures |x.recv.arb.j| == 2
    ensures var t' := Session(x.recv, t.sent + x.sent); Offer(t, items) == if x.code == 0 then (t', items) else Offer(t', items[1..])
  {
  }

  datatype Resumed = Resumed(t: Session, held: seq<UdpItem>, arrivals: seq<seq<UdpItem>>)

  /** First what is held, then one datagram after another. */
  function Resume(t: Session, held: seq<UdpItem>, arrivals: seq<seq<UdpItem>>): (r: Resumed)
    requires |t.recv.arb.j| == 2
    ensures |r.t.recv.arb.j| == 2
    decreases |arrivals|
  {
    var (t', rest) := Offer(t, held);
    if rest != [] || arrivals == [] then Resumed(t', rest, arrivals) else Resume(t', arrivals[0], arrivals[1..])
  }

  function Flat(ds: seq<seq<UdpItem>>): seq<UdpItem>
  {
    if ds == [] then [] else ds[0] + Flat(ds[1..])
  }

  // ---- laws -----------------------------------------------------------------------------------

  /** Folds the decided items, none of them refused. */
  function Decide(t: Session, items: seq<UdpItem>): (r: Option<Session>)
    requires |t.recv.arb.j| == 2
    ensures r.Some? ==> |r.value.recv.arb.j| == 2
    decreases |items|
  {
    if items == [] then Some(t)
    else if items[0].Ad? then Decide(t, items[1..])
    else
      var x := Receiver.Accept(t.recv, items[0]);
      if x.code == 0 then None else Decide(Session(x.recv, t.sent + x.sent), items[1..])
  }

  lemma {:induction false} DecideInTwo(t: Session, a: seq<UdpItem>, b: seq<UdpItem>)
    requires |t.recv.arb.j| == 2
    ensures Decide(t, a + b) == match Decide(t, a) case None => None case Some(t') => Decide(t', b)
    decreases |a|
  {
    if a == [] {
      assert a + b == b;
    } else {
      assert (a + b)[1..] == a[1..] + b;
      if a[0].Ad? {
        DecideInTwo(t, a[1..], b);
      } else {
        var x := Receiver.Accept(t.recv, a[0]);
        DecideInTwo(Session(x.recv, t.sent + x.sent), a[1..], b);
      }
    }
  }

  /** The session after deciding `done` and, if something is held, after its refused first item was offered. */
  ghost predicate Stalled(t: Session, done: seq<UdpItem>, held: seq<UdpItem>, t': Session)
    requires |t.recv.arb.j| == 2
  {
    match Decide(t, done)
    case None => false
    case Some(d) =>
      if held == [] then t' == d
      else
        && !held[0].Ad?
        && var x := Receiver.Accept(d.recv, held[0]);
           x.code == 0 && t' == Session(x.recv, d.sent + x.sent)
  }

  lemma StalledMore(t: Session, first: UdpItem, items: seq<UdpItem>, held: seq<UdpItem>, t': Session)
    requires |t.recv.arb.j| == 2
    requires var x := Receiver.Accept(t.recv, first);
             if first.Ad? then Stalled(t, items, held, t') else x.code != 0 && Stalled(Session(x.recv, t.sent + x.sent), items, held, t')
    ensures Stalled(t, [first] + items, held, t')
  {
    assert ([first] + items)[1..] == items;
  }

  lemma {:induction false} OfferHoldsTheRest(t: Session, items: seq<UdpItem>)
    requires |t.recv.arb.j| == 2
    ensures var (t', held) := Offer(t, items);
            && items == items[..|items| - |held|] + held
            && Stalled(t, items[..|items| - |held|], held, t')
    decreases |items|
  {
    if items != [] {
      var x := Receiver.Accept(t.recv, items[0]);
      var t1 := if items[0].Ad? then t else Session(x.recv, t.sent + x.sent);
      if items[0].Ad? || x.code != 0 {
        OfferHoldsTheRest(t1, items[1..]);
        var (t', held) := Offer(t, items);
        var n := |items| - |held|;
        assert items[..n] == [items[0]] + items[1..][..n - 1];
        StalledMore(t, items[0], items[1..][..n - 1], held, t');
      } else {
        assert items[..0] == [];
      }
    }
  }

  lemma StalledLater(t: Session, a: seq<UdpItem>, t1: Session, b: seq<UdpItem>, held: seq<UdpItem>, t': Session)
    requires |t.recv.arb.j| == 2 && Decide(t, a) == Some(t1) && Stalled(t1, b, held, t')
    ensures Stalled(t, a + b, held, t')
  {
    DecideInTwo(t, a, b);
  }

  /** Every item is decided in the order it arrived; a refused one is held with all behind it and offered again first. */
  lemma {:induction false} NothingIsSkipped(t: Session, held: seq<UdpItem>, arrivals: seq<seq<UdpItem>>) returns (done: seq<UdpItem>)
    requires |t.recv.arb.j| == 2
    ensures var r := Resume(t, held, arrivals);
            && held + Flat(arrivals) == done + (r.held + Flat(r.arrivals))
            && Stalled(t, done, r.held, r.t)
            && (r.held == [] ==> r.arrivals == [])
    decreases |arrivals|
  {
    OfferHoldsTheRest(t, held);
    var (t', rest) := Offer(t, held);
    done := held[..|held| - |rest|];
    if rest == [] && arrivals != [] {
      assert done == held;
      var more := NothingIsSkipped(t', arrivals[0], arrivals[1..]);
      var r := Resume(t', arrivals[0], arrivals[1..]);
      StalledLater(t, held, t', more, r.held, r.t);
      Regroup(held, more, r.held + Flat(r.arrivals));
      done := held + more;
    } else {
      Regroup(done, rest, Flat(arrivals));
    }
  }

  /** The protocol's step, repeated. */
  function PresentTimes(l: Link, n: nat): (l': Link)
    requires |l.recv.arb.j| == 2
    ensures |l'.recv.arb.j| == 2
    decreases n
  {
    if n == 0 || l.held == [] then l else PresentTimes(Present1(l), n - 1)
  }

  /** One held item: refused, it stays; else it goes, and the offer carries on. */
  lemma OfferOne(l: Link)
    requires |l.recv.arb.j| == 2 && l.held != []
    ensures var l1 := Present1(l);
            && l1 == l.(recv := l1.recv, up := l1.up, held := l1.held)
            && if Receiver.Accept(l.recv, l.held[0]).code == 0
               then l1.held == l.held && Offer(Session(l.recv, l.up), l.held) == (Session(l1.recv, l1.up), l.held)
               else l1.held == l.held[1..] && Offer(Session(l.recv, l.up), l.held) == Offer(Session(l1.recv, l1.up), l1.held)
  {
    if l.held[0].Ad? { assert l.up + [] == l.up; }
  }

  lemma PresentOnce(l: Link, m: nat)
    requires |l.recv.arb.j| == 2 && l.held != []
    ensures PresentTimes(l, m + 1) == PresentTimes(Present1(l), m) && PresentTimes(Present1(l), 0) == Present1(l)
  {
  }

  /** Presenting `n` times does to the link what offering its held items does. */
  ghost predicate OfferedBy(l: Link, n: nat)
    requires |l.recv.arb.j| == 2
  {
    var o := Offer(Session(l.recv, l.up), l.held);
    n <= |l.held| && PresentTimes(l, n) == l.(recv := o.0.recv, up := o.0.sent, held := o.1)
  }

  lemma OfferedLast(l: Link)
    requires |l.recv.arb.j| == 2 && l.held != [] && Receiver.Accept(l.recv, l.held[0]).code == 0
    ensures OfferedBy(l, 1)
  {
    OfferOne(l);
    PresentOnce(l, 0);
  }

  lemma OfferedMore(l: Link, m: nat)
    requires |l.recv.arb.j| == 2 && l.held != [] && Receiver.Accept(l.recv, l.held[0]).code != 0 && OfferedBy(Present1(l), m)
    ensures OfferedBy(l, m + 1)
  {
    OfferOne(l);
    PresentOnce(l, m);
  }

  /** Offering held items is the protocol's presenting step, taken until an item is refused. */
  lemma {:induction false} OfferIsPresenting(l: Link) returns (n: nat)
    requires |l.recv.arb.j| == 2
    ensures OfferedBy(l, n)
    decreases |l.held|
  {
    n := 0;
    if l.held != [] {
      if Receiver.Accept(l.recv, l.held[0]).code == 0 {
        n := 1;
        OfferedLast(l);
      } else {
        OfferOne(l);
        var m := OfferIsPresenting(Present1(l));
        n := m + 1;
        OfferedMore(l, m);
      }
    }
  }

  // ---- the object -----------------------------------------------------------------------------

  class McRecvTransport {
    const session: BackupRecvSession
    /** The datagram being read and the place in it. */
    var datagram: seq<UdpItem>
    var cur: nat
    /** Advertisements passed on to the engine. */
    var ads: nat

    ghost predicate Valid()
      reads this, session
    {
      session.Valid() && cur <= |datagram|
    }

    ghost function Held(): seq<UdpItem>
      requires Valid()
      reads this, session
    {
      datagram[cur..]
    }

    constructor (s: BackupRecvSession)
      requires s.Valid()
      ensures Valid() && session == s && Held() == [] && ads == 0
    {
      session := s;
      datagram, cur, ads := [], 0, 0;
    }

    /** Offers one item; `stalled` says that it was refused. */
    method ReadOne() returns (stalled: bool)
      requires Valid() && cur < |datagram|
      modifies this`cur, this`ads, session`gapPending, session`gapPendingSeq, session`sent, session`output, session.seqArb, session.seqArb.j
      ensures Valid() && datagram == old(datagram)
      ensures stalled ==> Held() != [] && (session.Net(), Held()) == Offer(old(session.Net()), old(Held()))
      ensures !stalled ==> cur == old(cur) + 1 && Offer(session.Net(), Held()) == Offer(old(session.Net()), old(Held()))
    {
      ghost var t, held := session.Net(), Held();
      assert held[0] == datagram[cur] && held[1..] == datagram[cur + 1..];
      if datagram[cur].Ad? {
        OfferAd(t, held);
        ads := ads + 1;
      } else {
        ghost var x := Receiver.Accept(t.recv, held[0]);
        OfferItem(t, held, x);
        var a := session.AcceptItem(datagram[cur]);
        assert session.Net() == Session(x.recv, t.sent + x.sent);
        if a == 0 { return true; }
      }
      cur := cur + 1;
      stalled := false;
    }

    /** Offers the rest of the datagram; `stalled` says that an item was refused. */
    method ReadOn() returns (stalled: bool)
      requires Valid()
      modifies this`cur, this`ads, session`gapPending, session`gapPendingSeq, session`sent, session`output, session.seqArb, session.seqArb.j
      ensures Valid() && datagram == old(datagram)
      ensures (session.Net(), Held()) == Offer(old(session.Net()), old(Held()))
      ensures stalled <==> Held() != []
    {
      ghost var goal := Offer(session.Net(), Held());
      while cur < |datagram|
        invariant Valid() && datagram == old(datagram) && Offer(session.Net(), Held()) == goal
        decreases |datagram| - cur
      {
        stalled := ReadOne();
        if stalled { return; }
      }
      stalled := false;
    }

    /** Reads until an item is refused or nothing has arrived; `n` datagrams are read. */
    method ResumeRead(arrivals: seq<seq<UdpItem>>) returns (n: nat)
      requires Valid()
      modifies this, session`gapPending, session`gapPendingSeq, session`sent, session`output, session.seqArb, session.seqArb.j
      ensures Valid() && n <= |arrivals|
      ensures Resumed(session.Net(), Held(), arrivals[n..]) == Resume(old(session.Net()), old(Held()), arrivals)
    {
      ghost var goal := Resume(session.Net(), Held(), arrivals);
      n := 0;
      assert arrivals[0..] == arrivals;
      while true
        invariant Valid() && n <= |arrivals| && Resume(session.Net(), Held(), arrivals[n..]) == goal
        decreases |arrivals| - n
      {
        var stalled := ReadOn();
        if stalled || n == |arrivals| { break; }
        assert arrivals[n..][1..] == arrivals[n + 1..];
        datagram, cur := arrivals[n], 0;
        n := n + 1;
        assert Held() == arrivals[n - 1];
      }
    }
  }
}
