/** The multicast sender's loop: hmbdc/tips/rmcast/McSendTransport.hpp, lines 140-212. */
module SendTransport {
  import opened Common
  import opened Messages
  import opened Receiver
  import opened Sender
  import opened CleanupQueues
  import opened RunBuilding

  /** What the vector of buffers points at: the advertisements, a ring slot, or the alert. */
  datatype Piece = AdPiece | EntryPiece(s: nat) | AlertPiece

  function ItemAt(slots: seq<Entry>, alertSeq: nat, p: Piece): UdpItem
    requires |slots| > 0
  {
    match p
    case AdPiece => Ad
    case EntryPiece(s) => Data(s, slots[s % |slots|].msg)
    case AlertPiece => Alert(alertSeq)
  }

  /** The datagram, read through the pointers when it is sent. */
  function Items(slots: seq<Entry>, alertSeq: nat, ps: seq<Piece>): (r: seq<UdpItem>)
    requires |slots| > 0
    ensures |r| == |ps| && forall i :: 0 <= i < |r| ==> r[i] == ItemAt(slots, alertSeq, ps[i])
  {
    seq(|ps|, i requires 0 <= i < |ps| => ItemAt(slots, alertSeq, ps[i]))
  }

  /** The pieces the protocol's batch stands for. */
  function Pieces(from: nat, b: Batch): seq<Piece>
  {
    match b
    case NoBatch => []
    case Batch(k, ads, alert) =>
      (if ads then [AdPiece] else []) + EntryPieces(from, k) + (if alert then [AlertPiece] else [])
  }

  function EntryPieces(from: nat, k: nat): (r: seq<Piece>)
    ensures |r| == k
  {
    if k == 0 then [] else EntryPieces(from, k - 1) + [EntryPiece(from + k - 1)]
  }

  /** The cleanup queue once `k` entries from `from` on are taken. */
  function Queued(queue: seq<Cleanup>, log: seq<Entry>, from: nat, k: nat): seq<Cleanup>
    requires from + k <= |log|
  {
    if k == 0 then queue
    else
      var q, s := Queued(queue, log, from, k - 1), from + k - 1;
      if log[s].msg.tag == START_TAG then q + [Cleanup(s + log[s].segCount + 1, log[s].att)] else q
  }

  lemma {:induction false} QueuedIsTrainEnds(queue: seq<Cleanup>, log: seq<Entry>, from: nat, k: nat)
    requires from + k <= |log|
    ensures Queued(queue, log, from, k) == queue + TrainEnds(log, from, from + k)
  {
    if k > 0 { QueuedIsTrainEnds(queue, log, from, k - 1); }
  }

  lemma {:induction false} EntryPiecesAt(from: nat, k: nat, i: nat)
    requires i < k
    ensures EntryPieces(from, k)[i] == EntryPiece(from + i)
  {
    if k > 1 { EntryPiecesAt(from, k - 1, if i < k - 1 then i else 0); }
  }

  lemma PiecesAreTheDatagram(x: Sender)
    requires x.batch.Batch? && |x.slots| > 0
    ensures Items(x.slots, x.alertSeq, Pieces(x.rs0, x.batch)) == Datagram(x)
  {
    forall i: nat | i < x.batch.waste ensures EntryPieces(x.rs0, x.batch.waste)[i] == EntryPiece(x.rs0 + i) {
      EntryPiecesAt(x.rs0, x.batch.waste, i);
    }
  }

  /** Some piece, or item, is more than an advertisement: it tells listeners how far the log goes. */
  predicate Tells(ps: seq<Piece>) { exists i :: 0 <= i < |ps| && ps[i] != AdPiece }

  predicate Telling(d: seq<UdpItem>) { exists i :: 0 <= i < |d| && d[i] != Ad }

  /** The advertisements are lined up, or in one of the datagrams `ds`. */
  predicate Advertises(ps: seq<Piece>, ds: seq<seq<UdpItem>>)
  {
    if ds == [] then AdPiece in ps else Ad in ds[0] || Advertises(ps, ds[1..])
  }

  /** So is what tells how far the log goes. */
  predicate Announces(ps: seq<Piece>, ds: seq<seq<UdpItem>>)
  {
    if ds == [] then Tells(ps) else Telling(ds[0]) || Announces(ps, ds[1..])
  }

  lemma {:induction false} StillSaid(ps: seq<Piece>, ds: seq<seq<UdpItem>>, d: seq<UdpItem>, ps': seq<Piece>)
    requires (AdPiece in ps ==> Ad in d) && (Tells(ps) ==> Telling(d))
    ensures (Advertises(ps, ds) ==> Advertises(ps', ds + [d])) && (Announces(ps, ds) ==> Announces(ps', ds + [d]))
    decreases |ds|
  {
    if ds == [] {
      assert (ds + [d])[0] == d;
    } else {
      assert (ds + [d])[0] == ds[0] && (ds + [d])[1..] == ds[1..] + [d];
      StillSaid(ps, ds[1..], d, ps');
    }
  }

  /** What was lined up is in the datagram. */
  lemma SentWhatWasLinedUp(slots: seq<Entry>, alertSeq: nat, ps: seq<Piece>)
    requires |slots| > 0
    ensures var d := Items(slots, alertSeq, ps); (AdPiece in ps ==> Ad in d) && (Tells(ps) ==> Telling(d))
  {
    var d := Items(slots, alertSeq, ps);
    if AdPiece in ps {
      var i :| 0 <= i < |ps| && ps[i] == AdPiece;
      assert d[i] == Ad;
    }
    if Tells(ps) {
      var i :| 0 <= i < |ps| && ps[i] != AdPiece;
      assert d[i] != Ad;
    }
  }

  /** One of the protocol's multicast steps. */
  ghost predicate SenderStep(x: Sender, st: Step, x': Sender)
  {
    && |x.slots| > 0 && x.visible <= |x.log|
    && match st
       case StepBuild(k, ads, alert) => CanBuild(x, k, ads, alert) && x' == Build(x, k, ads, alert)
       case StepMulticast => x.batch.Batch? && x' == Multicast(x)
       case StepSkip(k) => CanSkip(x, k) && x' == Skip(x, k)
       case _ => false
  }

  /** With sessions nothing is thrown away. */
  ghost function McStep(sessionCount: nat): (Sender, Step, Sender) -> bool
  {
    (x, st, x') => SenderStep(x, st, x') && (st.StepSkip? ==> sessionCount == 0)
  }

  /** The steps lead from `x` to `x'`. */
  ghost predicate Goes(x: Sender, sts: seq<Step>, x': Sender, sessionCount: nat) { Leads(McStep(sessionCount), x, sts, x') }

  lemma GoesFurther(x: Sender, sts: seq<Step>, m: Sender, more: seq<Step>, x': Sender, sessionCount: nat)
    requires Goes(x, sts, m, sessionCount) && Goes(m, more, x', sessionCount)
    ensures Goes(x, sts + more, x', sessionCount)
  {
    LeadsOn(McStep(sessionCount), x, sts, m, more, x');
  }

  lemma GoesOneStep(x: Sender, st: Step, x': Sender, sessionCount: nat)
    requires SenderStep(x, st, x') && (st.StepSkip? ==> sessionCount == 0)
    ensures Goes(x, [st], x', sessionCount)
  {
    LeadsByOne(McStep(sessionCount), x, st, x');
  }

  /** What is visible in the ring memory is what was put. */
  ghost predicate Faithful(x: Sender)
  {
    && |x.slots| > 0 && x.rs0 <= x.visible <= |x.log|
    && forall s :: x.rs0 <= s < x.visible ==> x.slots[s % |x.slots|] == x.log[s]
  }

  /** It has entries to send, or picked some: they are visible. */
  ghost predicate Ready(x: Sender) { Faithful(x) && (x.batch.Batch? ==> x.rs0 + x.batch.waste <= x.visible) }

  ghost predicate SameMemory(x: Sender, x': Sender)
  {
    x'.slots == x.slots && x'.visible == x.visible && x'.log == x.log && x'.net == x.net
  }

  class McSendTransport {
    const maxSendBatch: nat
    var readSeq0: nat
    var toSend: seq<Piece>
    var wasteSize: nat
    var adPending: bool
    var adCount: nat
    var seqAlertPending: bool
    var expectSeq: nat
    var startSending: bool
    /** Shared with the backup server. */
    const queue: CleanupQueue
    /** Datagrams sent. */
    var sent: seq<seq<UdpItem>>

    /** The object is at the protocol's state `x`. */
    ghost predicate Matches(x: Sender)
      reads this, queue
    {
      && x.rs0 == readSeq0 && x.alertSeq == expectSeq && x.cleanup == queue.entries
      && toSend == Pieces(x.rs0, x.batch) && (x.batch.Batch? ==> toSend != [])
      && wasteSize == (if x.batch.Batch? then x.batch.waste else 0)
    }

    constructor (batch: nat, shared: CleanupQueue)
      ensures maxSendBatch == batch && readSeq0 == 0 && toSend == [] && wasteSize == 0 && expectSeq == 0
      ensures queue == shared && sent == [] && !adPending && !seqAlertPending && !startSending && adCount == 0
    {
      maxSendBatch, queue := batch, shared;
      readSeq0, toSend, wasteSize, adPending, adCount := 0, [], 0, false, 0;
      seqAlertPending, expectSeq, startSending, sent := false, 0, false, [];
    }

    method StartSend()
      modifies this`startSending
      ensures startSending
    {
      startSending := true;
    }

    /** Sends the datagram that is ready. */
    method SendReady(slots: seq<Entry>, ghost x: Sender) returns (ghost x': Sender, ghost d: seq<UdpItem>)
      requires Matches(x) && Ready(x) && x.batch.Batch? && slots == x.slots
      modifies this`readSeq0, this`toSend, this`wasteSize, this`sent
      ensures x' == Multicast(x) && Matches(x') && Ready(x') && x'.slots == slots && x'.visible == x.visible && x'.net == x.net + {d}
      ensures sent == old(sent) + [d] && d == Datagram(x) && toSend == [] && old(readSeq0) <= readSeq0
      ensures (AdPiece in old(toSend) ==> Ad in d) && (Tells(old(toSend)) ==> Telling(d))
    {
      PiecesAreTheDatagram(x);
      x', d := Multicast(x), Datagram(x);
      SentWhatWasLinedUp(slots, expectSeq, toSend);
      sent := sent + [Items(slots, expectSeq, toSend)];
      readSeq0 := readSeq0 + wasteSize;
      toSend, wasteSize := [], 0;
    }

    /** Takes the entry after the first `k`; its train, if it heads one, is queued for cleanup. */
    method TakeOne(slots: seq<Entry>, k: nat, ghost log: seq<Entry>, ghost queued: seq<Cleanup>)
      requires readSeq0 + k < |log| && |slots| > 0 && slots[(readSeq0 + k) % |slots|] == log[readSeq0 + k]
      requires toSend == EntryPieces(readSeq0, k) && queue.entries == Queued(queued, log, readSeq0, k)
      modifies this`toSend, this`expectSeq, queue
      ensures toSend == EntryPieces(readSeq0, k + 1) && queue.entries == Queued(queued, log, readSeq0, k + 1)
      ensures expectSeq == readSeq0 + k + 1
    {
      var s := readSeq0 + k;
      var item := slots[s % |slots|];
      if item.msg.tag == START_TAG {
        queue.entries := queue.entries + [Cleanup(s + item.segCount + 1, item.att)];
      }
      toSend := toSend + [EntryPiece(s)];
      expectSeq := s + 1;
    }

    /** Takes ring entries into the batch, as many as the rate and the datagram size allow. */
    method Take(slots: seq<Entry>, end: nat, allowed: nat, ghost x: Sender) returns (k: nat)
      requires Matches(x) && x.batch == NoBatch && Faithful(x) && slots == x.slots && readSeq0 <= end <= x.visible
      modifies this`toSend, this`expectSeq, queue
      ensures readSeq0 + k <= end && k <= allowed && (k == allowed || readSeq0 + k == end)
      ensures toSend == Pieces(readSeq0, Batch(k, false, false))
      ensures queue.entries == old(queue.entries) + TrainEnds(x.log, readSeq0, readSeq0 + k)
      ensures expectSeq == if k > 0 then readSeq0 + k else old(expectSeq)
    {
      k := 0;
      while readSeq0 + k < end && k < allowed
        invariant readSeq0 + k <= end && k <= allowed
        invariant toSend == EntryPieces(readSeq0, k) && queue.entries == Queued(old(queue.entries), x.log, readSeq0, k)
        invariant expectSeq == if k > 0 then readSeq0 + k else old(expectSeq)
      {
        TakeOne(slots, k, x.log, old(queue.entries));
        k := k + 1;
      }
      QueuedIsTrainEnds(old(queue.entries), x.log, readSeq0, k);
      assert [] + toSend + [] == toSend;
    }

    /** Throws away what is visible: nobody listens. */
    method Waste(end: nat, ghost x: Sender) returns (ghost x': Sender)
      requires Matches(x) && x.batch == NoBatch && Faithful(x) && readSeq0 <= end <= x.visible
      modifies this`readSeq0
      ensures x' == Skip(x, end - old(readSeq0)) && Matches(x') && Faithful(x') && Goes(x, [StepSkip(end - old(readSeq0))], x', 0)
    {
      x' := Skip(x, end - readSeq0);
      GoesOneStep(x, StepSkip(end - readSeq0), x', 0);
      readSeq0 := end;
    }

    /** The next batch so far: advertisements, or `k` ring entries of the protocol's state `x`. */
    ghost predicate Holds(x: Sender, k: nat, ads: bool)
      reads this, queue
    {
      && x.batch == NoBatch && Faithful(x) && x.rs0 == readSeq0 && readSeq0 + k <= x.visible && wasteSize == k
      && queue.entries == x.cleanup + TrainEnds(x.log, readSeq0, readSeq0 + k)
      && expectSeq == (if k > 0 then readSeq0 + k else x.alertSeq)
      && toSend == Pieces(readSeq0, Batch(k, ads, false)) && (k > 0 ==> !ads)
    }

    /** Looks at the ring: wastes what is visible without sessions, else takes entries. */
    method PickEntries(slots: seq<Entry>, visible: nat, sessionCount: nat, allowed: nat, ghost x: Sender)
      returns (k: nat, ghost x': Sender, ghost sts: seq<Step>)
      requires Matches(x) && x.batch == NoBatch && Faithful(x) && slots == x.slots && visible == x.visible
      modifies this`readSeq0, this`toSend, this`wasteSize, this`expectSeq, queue
      ensures Goes(x, sts, x', sessionCount) && Holds(x', k, false) && x' == x.(rs0 := readSeq0)
      ensures var most := Min(visible - old(readSeq0), maxSendBatch);
              if sessionCount == 0 then readSeq0 == old(readSeq0) + most && k == 0
              else readSeq0 == old(readSeq0) && k == Min(most, allowed)
    {
      x', sts, k := x, [], 0;
      var end := Min(visible, readSeq0 + maxSendBatch);
      if sessionCount == 0 {
        sts := [StepSkip(end - readSeq0)];
        x' := Waste(end, x);
      } else {
        k := Take(slots, end, allowed, x);
      }
      wasteSize := k;
    }

    /** Adds the alert if it is due, and closes the batch. */
    method CloseBatch(k: nat, ads: bool, sessionCount: nat, ghost x: Sender) returns (ghost x': Sender, ghost sts: seq<Step>)
      requires Holds(x, k, ads)
      modifies this`toSend, this`seqAlertPending
      ensures (ads ==> AdPiece in toSend) && (old(seqAlertPending) ==> Tells(toSend)) && (old(toSend) != [] ==> toSend != [])
      ensures Goes(x, sts, x', sessionCount) && Matches(x') && Ready(x') && SameMemory(x, x')
      ensures toSend == [] ==> x'.batch == NoBatch
      ensures !seqAlertPending
    {
      var alert := seqAlertPending && wasteSize == 0;
      if alert {
        toSend := toSend + [AlertPiece];
        assert toSend[|toSend| - 1] == AlertPiece;
      } else if seqAlertPending {
        EntryPiecesAt(readSeq0, k, 0);
        assert toSend[0] == EntryPiece(readSeq0);
      }
      seqAlertPending := false;
      assert toSend == Pieces(x.rs0, Batch(k, ads, alert)) && (ads ==> toSend[0] == AdPiece);
      x', sts := x, [];
      if toSend != [] {
        x', sts := Build(x, k, ads, alert), [StepBuild(k, ads, alert)];
        BuildIsAStep(x, k, ads, alert);
        GoesOneStep(x, StepBuild(k, ads, alert), x', sessionCount);
      } else {
        assert queue.entries == x.cleanup;
      }
    }

    /** Looking at the ring from `from` on finds nothing to send. */
    predicate NothingToPick(from: nat, visible: nat, sessionCount: nat, allowed: nat)
      reads this
    {
      if sessionCount == 0 then readSeq0 == visible || readSeq0 == from + maxSendBatch
      else readSeq0 == visible || maxSendBatch == 0 || allowed == 0
    }

    /** Prepares the next datagram: advertisements, ring entries, or an alert when it holds no entry. */
    method Prepare(slots: seq<Entry>, visible: nat, sessionCount: nat, allowed: nat, ghost x: Sender)
      returns (ghost x': Sender, ghost sts: seq<Step>)
      requires Matches(x) && x.batch == NoBatch && Faithful(x) && slots == x.slots && visible == x.visible
      modifies this`readSeq0, this`toSend, this`wasteSize, this`adPending, this`seqAlertPending, this`expectSeq, queue
      ensures Goes(x, sts, x', sessionCount) && Matches(x') && Ready(x') && SameMemory(x, x')
      ensures toSend == [] ==> x'.batch == NoBatch
      ensures !adPending && !seqAlertPending && old(readSeq0) <= readSeq0
      ensures (old(adPending) && adCount > 0 ==> AdPiece in toSend) && (old(seqAlertPending) ==> Tells(toSend))
      ensures toSend == [] ==> !startSending || NothingToPick(old(readSeq0), visible, sessionCount, allowed)
    {
      x', sts := x, [];
      var k, ads := 0, adPending && adCount > 0;
      if ads { toSend := [AdPiece]; }
      adPending := false;
      if startSending && toSend == [] {
        k, x', sts := PickEntries(slots, visible, sessionCount, allowed, x);
      }
      ghost var m, first := x', sts;
      x', sts := CloseBatch(k, ads, sessionCount, m);
      GoesFurther(x, first, m, sts, x', sessionCount);
      sts := first + sts;
    }

    /** The answer of the rate limit and the datagram size to the `n`-th datagram. */
    static function Allowed(allowed: seq<nat>, n: nat): nat { if n < |allowed| then allowed[n] else 0 }

    /** One turn of the loop: the datagram that is ready, if any, goes out, and the next one is prepared. */
    method Turn(slots: seq<Entry>, visible: nat, sessionCount: nat, allowed: nat, ghost x: Sender)
      returns (ghost d: seq<UdpItem>, ghost x': Sender, ghost sts: seq<Step>)
      requires Matches(x) && Ready(x) && slots == x.slots && visible == x.visible
      modifies this, queue
      ensures Goes(x, sts, x', sessionCount) && Matches(x') && Ready(x') && x'.slots == slots && x'.visible == visible
      ensures if old(toSend) == [] then sent == old(sent) && x'.net == x.net
              else sent == old(sent) + [d] && x'.net == x.net + {d} && (AdPiece in old(toSend) ==> Ad in d) && (Tells(old(toSend)) ==> Telling(d))
      ensures !adPending && !seqAlertPending && startSending == old(startSending) && adCount == old(adCount)
      ensures (old(adPending) && adCount > 0 ==> AdPiece in toSend) && (old(seqAlertPending) ==> Tells(toSend))
      ensures toSend == [] ==> !startSending || exists from: nat ::
                old(readSeq0) <= from <= readSeq0 && NothingToPick(from, visible, sessionCount, allowed)
      ensures old(readSeq0) <= readSeq0
    {
      ghost var y := x;
      sts, d := [], [];
      if toSend != [] {
        sts := OnceSent(x, [], x, sessionCount);
        y, d := SendReady(slots, x);
      }
      ghost var more;
      x', more := Prepare(slots, visible, sessionCount, allowed, y);
      GoesFurther(x, sts, y, more, x', sessionCount);
      sts := sts + more;
    }

    /**
     * Sends and prepares until there is nothing left or the socket takes no more. `kernel` holds the socket's
     * answers, after which it is not ready; `allowed` what the rate limit and the datagram size let through. The
     * datagrams `ds` go out. Unless the socket refused the first, whatever was pending is lined up or sent.
     */
    method ResumeSend(slots: seq<Entry>, visible: nat, sessionCount: nat, allowed: seq<nat>, kernel: seq<bool>, ghost x: Sender)
      returns (ghost ds: seq<seq<UdpItem>>, ghost x': Sender, ghost sts: seq<Step>)
      requires Matches(x) && Ready(x) && slots == x.slots && visible == x.visible
      modifies this, queue
      ensures Goes(x, sts, x', sessionCount) && Matches(x') && startSending == old(startSending)
      ensures sent == old(sent) + ds && (forall d :: d in ds ==> d in x'.net) && old(readSeq0) <= readSeq0
      ensures |ds| <= |kernel| && forall i :: 0 <= i < |ds| ==> kernel[i]
      ensures toSend != [] ==> |ds| == |kernel| || !kernel[|ds|]
      ensures toSend == [] ==> !startSending || exists from: nat ::
                old(readSeq0) <= from <= readSeq0 && NothingToPick(from, visible, sessionCount, Allowed(allowed, |ds|))
      ensures old(toSend) == [] || ds != [] ==> !adPending && !seqAlertPending
      ensures old(toSend) != [] && ds == [] ==> toSend == old(toSend) && readSeq0 == old(readSeq0)
      ensures old(adPending) && old(adCount) > 0 ==> adPending || Advertises(toSend, ds)
      ensures old(seqAlertPending) ==> seqAlertPending || Announces(toSend, ds)
    {
      x', sts, ds := x, [], [];
      var i := 0;
      ghost var turned := false;
      while true
        invariant i == |ds| <= |kernel| && forall k :: 0 <= k < i ==> kernel[k]
        invariant Goes(x, sts, x', sessionCount) && Matches(x') && Ready(x') && x'.slots == slots && x'.visible == visible
        invariant sent == old(sent) + ds && (forall d :: d in ds ==> d in x'.net) && old(readSeq0) <= readSeq0
        invariant startSending == old(startSending) && adCount == old(adCount) && (turned && i == 0 ==> old(toSend) == [])
        invariant turned ==> !adPending && !seqAlertPending && toSend != []
        invariant turned && old(adPending) && old(adCount) > 0 ==> Advertises(toSend, ds)
        invariant turned && old(seqAlertPending) ==> Announces(toSend, ds)
        invariant !turned ==> i == 0 && toSend == old(toSend) && readSeq0 == old(readSeq0)
        invariant !turned ==> adPending == old(adPending) && seqAlertPending == old(seqAlertPending)
        decreases |kernel| - i, toSend == []
      {
        if toSend != [] && (i == |kernel| || !kernel[i]) { return; }
        ghost var d, y, more, ps := [], x', [], toSend;
        var sending := toSend != [];
        d, x', more := Turn(slots, visible, sessionCount, Allowed(allowed, if sending then i + 1 else i), y);
        GoesFurther(x, sts, y, more, x', sessionCount);
        if sending { StillSaid(ps, ds, d, toSend); }
        turned, sts := true, sts + more;
        if sending { ds, i := ds + [d], i + 1; }
        if toSend == [] { return; }
      }
    }
  }

  lemma OnceSent(x: Sender, sts: seq<Step>, y: Sender, sessionCount: nat) returns (sts': seq<Step>)
    requires Goes(x, sts, y, sessionCount) && Ready(y) && y.batch.Batch?
    ensures Goes(x, sts', Multicast(y), sessionCount)
  {
    GoesOneStep(y, StepMulticast, Multicast(y), sessionCount);
    GoesFurther(x, sts, y, [StepMulticast], Multicast(y), sessionCount);
    sts' := sts + [StepMulticast];
  }

  lemma BuildIsAStep(x: Sender, k: nat, ads: bool, alert: bool)
    requires Faithful(x) && CanBuild(x, k, ads, alert)
    ensures SenderStep(x, StepBuild(k, ads, alert), Build(x, k, ads, alert))
    ensures k == 0 ==> Build(x, k, ads, alert) == x.(batch := Batch(k, ads, alert))
  {
    assert k == 0 ==> x.cleanup + [] == x.cleanup && x.queued + [] == x.queued;
  }

  /** These steps are steps of the whole system; throwing entries away needs that no session is alive. */
  lemma SenderStepIsAStep(y: System, st: Step, x': Sender)
    requires SenderStep(y.snd, st, x') && !y.snd.stopped && (st.StepSkip? ==> forall id :: id in y.links ==> !y.links[id].alive)
    ensures Next(y, st, y.(snd := x'))
  {
  }

  /** What these steps leave alone. */
  ghost predicate SameRest(x: Sender, x': Sender)
  {
    && x'.cap == x.cap && x'.replay == x.replay && x'.log == x.log && x'.slots == x.slots && x'.visible == x.visible
    && x'.rs1 == x.rs1 && x'.leastIt == x.leastIt && x'.released == x.released && x'.stopped == x.stopped
  }

  lemma {:induction false} GoesKeepsRest(x: Sender, sts: seq<Step>, x': Sender, sessionCount: nat)
    requires Goes(x, sts, x', sessionCount)
    ensures SameRest(x, x')
    decreases |sts|
  {
    if sts != [] {
      var m := GoesFirst(x, sts, x', sessionCount);
      GoesKeepsRest(m, sts[1..], x', sessionCount);
    }
  }

  lemma GoesFirst(x: Sender, sts: seq<Step>, x': Sender, sessionCount: nat) returns (m: Sender)
    requires Goes(x, sts, x', sessionCount) && sts != []
    ensures SenderStep(x, sts[0], m) && (sts[0].StepSkip? ==> sessionCount == 0) && Goes(m, sts[1..], x', sessionCount)
  {
    m :| McStep(sessionCount)(x, sts[0], m) && Leads(McStep(sessionCount), m, sts[1..], x');
  }

  /** From a state of a run they lead to one: nobody else's part changes. */
  lemma {:induction false} GoesIsReached(y: System, sts: seq<Step>, x': Sender, sessionCount: nat, clear: bool)
    requires GetsTo(y, clear) && !y.snd.stopped && Goes(y.snd, sts, x', sessionCount)
    requires sessionCount == 0 ==> forall id :: id in y.links ==> !y.links[id].alive
    ensures GetsTo(y.(snd := x'), clear)
    decreases |sts|
  {
    if sts == [] {
      assert y.(snd := x') == y;
    } else {
      var m := GoesFirst(y.snd, sts, x', sessionCount);
      SenderStepIsAStep(y, sts[0], m);
      GoesOn(y, sts[0], y.(snd := m), clear);
      GoesIsReached(y.(snd := m), sts[1..], x', sessionCount, clear);
    }
  }
}
