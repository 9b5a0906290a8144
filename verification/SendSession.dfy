/** The sending session as an object over bytes: hmbdc/tips/reliable/BackupSendSessionT.hpp. */
module SendSession {
  import opened Common
  import opened Messages
  import opened Sender
  import opened Relic
  import opened Commands
  import opened SendBytes
  import opened SendPath

  /** What the kernel does with one `sendmsg`: -1 would block, below that an error, else how much it takes. */
  function Accepted(answer: int, size: nat): int
  {
    if answer < 0 then answer else Min(answer, size)
  }

  /** The kernel's `i`-th answer; after the last one it would block. */
  function AnswerAt(kernel: seq<int>, i: nat): int { if i < |kernel| then kernel[i] else -1 }

  /** It answers `count` times, and takes up to `size` bytes each time. */
  predicate Takes(kernel: seq<int>, count: nat, size: nat) { count <= |kernel| && forall i :: 0 <= i < |kernel| ==> size <= kernel[i] }

  /** One of its answers is an error. */
  predicate Fails(kernel: seq<int>) { exists i :: 0 <= i < |kernel| && kernel[i] < -1 }

  /** If the kernel takes everything, only an error keeps what was asked for from being sent in full. */
  lemma WhenAllIsTaken(slots: seq<Slot>, subs: set<Tag>, flag: byte, w0: seq<byte>, q0: seq<Request>, n: seq<nat>, w: seq<byte>,
                       rest: seq<byte>, q: seq<Request>, kernel: seq<int>, used: nat, ok: bool)
    requires |slots| > 0 && Served(slots, subs, flag, w0, q0, n, w + rest, q) && used <= Owed(q0)
    requires ok ==> q == [] || rest != [] || (used > 0 && AnswerAt(kernel, used - 1) == -1)
    requires rest != [] ==> used > 0 && |w0| + AnswerAt(kernel, used - 1) <= |w|
    ensures ok && Takes(kernel, Owed(q0), |BytesOf(slots, subs, flag, Expand(q0))|) ==>
              q == [] && rest == [] && w == w0 + BytesOf(slots, subs, flag, Expand(q0))
  {
    if ok && Takes(kernel, Owed(q0), |BytesOf(slots, subs, flag, Expand(q0))|) {
      if used > 0 { assert AnswerAt(kernel, used - 1) == kernel[used - 1]; }
      BytesOfConcat(slots, subs, flag, n, Expand(q));
      assert w + [] == w;
      AllServed(slots, subs, flag, w0, q0, n, w);
    }
  }

  const DATA_SIZE := 16 * 1024

  class BackupSendSession {
    const toSend: array<IoVec>
    const relic: array<IoVec>
    const flag: byte
    var relicLen: nat
    var msghdrRelicSize: nat
    var bufIt: nat
    var bufItNext: nat
    var toSendQueue: seq<Request>
    var clientSubs: set<Tag>
    var ready: bool
    const data: array<char>
    var filledLen: nat
    /** Text read and not understood yet. */
    ghost var text: string
    /** Bytes handed over but not taken by the kernel, and those taken. */
    ghost var rest: seq<byte>
    ghost var wire: seq<byte>

    ghost predicate Valid()
      reads this, relic, data
    {
      && filledLen <= data.Length && text == data[..filledLen]
      && toSend != relic && toSend.Length == relic.Length >= 2 && relicLen <= relic.Length
      && msghdrRelicSize == |rest|
      && (msghdrRelicSize > 0 ==> bufItNext <= bufIt && rest == Flat(relic[..relicLen]))
    }

    ghost function State(): Desk
      reads this
    {
      Desk(clientSubs, ready, toSendQueue, bufIt, bufItNext, rest, wire)
    }

    constructor (start: nat, batch: nat, flushFlag: byte)
      requires batch >= 2
      ensures Valid() && fresh(toSend) && fresh(relic) && toSend.Length == batch
      ensures bufIt == bufItNext == start && toSendQueue == [] && wire == [] && rest == []
      ensures clientSubs == {} && !ready && flag == flushFlag && filledLen == 0 && fresh(data)
    {
      data := new char[DATA_SIZE](_ => ' ');
      filledLen := 0;
      toSend := new IoVec[batch](_ => []);
      relic := new IoVec[batch](_ => []);
      flag := flushFlag;
      relicLen, msghdrRelicSize, bufIt, bufItNext := 0, 0, start, start;
      toSendQueue, clientSubs, ready, wire, rest, text := [], {}, false, [], [], [];
    }

    ghost function Hearing(): Ear
      reads this
    {
      Ear(clientSubs, ready, toSendQueue, true)
    }

    method FindTab() returns (p: nat)
      requires Valid()
      ensures p == Find(text) <= filledLen
    {
      p := 0;
      while p < filledLen && data[p] != TAB
        invariant p <= filledLen && Find(text) == p + Find(text[p..])
      {
        assert text[p..][1..] == text[p + 1..];
        p := p + 1;
      }
      assert p < filledLen ==> text[p..][0] == data[p];
    }

    /** Drops the first `n` characters. */
    method Forget(n: nat)
      requires Valid() && n <= filledLen
      modifies data, this`filledLen, this`text
      ensures Valid() && text == old(text)[n..]
    {
      text := text[n..];
      var k := 0;
      while k < filledLen - n
        invariant filledLen == old(filledLen) && text == old(text)[n..] && 0 <= k <= filledLen - n
        invariant forall m :: 0 <= m < k ==> data[m] == text[m]
        invariant forall m :: k <= m < filledLen - n ==> data[n + m] == text[m]
      {
        data[k] := data[n + k];
        k := k + 1;
      }
      filledLen := filledLen - n;
    }

    /** Acts on one command; false when the connection is to be given up. */
    method Act(token: string, cap: nat) returns (ok: bool)
      modifies this`clientSubs, this`ready, this`toSendQueue
      ensures var e := Hear(old(Hearing()), token, cap);
              ok == e.ok && clientSubs == e.subs && ready == e.ready && toSendQueue == e.queue
    {
      ok := true;
      match Parse(token)
      case Cmd(Subscribe(tag)) => clientSubs := clientSubs + {tag};
      case Cmd(AllSent) => ready := true;
      case Cmd(Report(s, len)) => toSendQueue := PushRequest(toSendQueue, Request(s, len), cap);
      case Unsubscribe(tag) => clientSubs := clientSubs - {tag};
      case Ignored =>
      case Bad => ok := false;
    }

    method Fill(input: string) returns (l: nat)
      requires Valid()
      modifies data, this`filledLen, this`text
      ensures Valid() && old(filledLen) <= data.Length
      ensures l == Min(|input|, data.Length - old(filledLen)) && text == old(text) + input[..l]
    {
      l := Min(|input|, data.Length - filledLen);
      var i := 0;
      while i < l
        invariant 0 <= i <= l && filledLen == old(filledLen) && text == old(text)
        invariant data[..filledLen] == old(text) && data[filledLen..filledLen + i] == input[..i]
      {
        data[filledLen + i] := input[i];
        i := i + 1;
      }
      filledLen, text := filledLen + l, text + input[..l];
    }

    /** Obeys the first command if it is complete; `more` says that there may be another. */
    method HearOne(cap: nat) returns (ok: bool, more: bool)
      requires Valid()
      modifies data, this`filledLen, this`text, this`clientSubs, this`ready, this`toSendQueue
      ensures Valid() && (more ==> ok && filledLen < old(filledLen))
      ensures more ==> Listen(Hearing(), text, cap) == Listen(old(Hearing()), old(text), cap)
      ensures !more ==> (Hearing().(ok := ok), text) == Listen(old(Hearing()), old(text), cap)
    {
      var p := FindTab();
      if p == filledLen { return true, false; }
      assert data[..p] == text[..p];
      ghost var e := Hear(Hearing(), text[..p], cap);
      ListenOnce(Hearing(), text, e, cap);
      ok := Act(data[..p], cap);
      more := ok;
      if ok { Forget(p + 1); }
    }

    /** Reads what the socket offers, as far as there is room, and obeys every complete command. */
    method DoRead(input: Option<string>, cap: nat) returns (ok: bool, ghost got: string)
      requires Valid()
      modifies data, this`filledLen, this`text, this`clientSubs, this`ready, this`toSendQueue
      ensures Valid() && (input.None? ==> got == []) && old(filledLen) <= data.Length
      ensures input.Some? ==> got <= input.value && |got| == Min(|input.value|, data.Length - old(filledLen))
      ensures input.Some? && got == [] ==> !ok && Hearing() == old(Hearing()) && text == old(text)
      ensures input.None? || got != [] ==>
                (Hearing().(ok := ok), text) == Listen(old(Hearing()), old(text) + got, cap)
    {
      got := [];
      if input.Some? {
        var l := Fill(input.value);
        got := input.value[..l];
        if l == 0 { return false, got; }
      }
      assert text == old(text) + got;
      ghost var goal := Listen(Hearing(), text, cap);
      var more := true;
      ok := true;
      while more
        invariant Valid() && (more ==> ok && Listen(Hearing(), text, cap) == goal)
        invariant !more ==> (Hearing().(ok := ok), text) == goal
        decreases more, filledLen
      {
        ok, more := HearOne(cap);
      }
    }

    /** Sends what an earlier call left over; `done` says that nothing is left. */
    method FlushRelic(answer: int) returns (ok: bool, done: bool)
      requires Valid() && msghdrRelicSize > 0
      modifies this`relicLen, this`msghdrRelicSize, this`bufItNext, this`wire, this`rest, relic
      ensures Valid() && wire + rest == old(wire + rest)
      ensures done <==> rest == []
      ensures bufItNext == if done then bufIt else old(bufItNext)
      ensures ok <==> answer >= -1
      ensures answer < 0 ==> wire == old(wire)
      ensures |rest| == |old(rest)| - Taken(answer, |old(rest)|)
    {
      var l := Accepted(answer, msghdrRelicSize);
      if l < 0 { return l == -1, false; }
      wire, rest := wire + rest[..l], rest[l..];
      if l == msghdrRelicSize {
        msghdrRelicSize := 0;
        bufItNext := bufIt;
        return true, true;
      }
      relicLen := ExtractRelicTo(relic, relic, relicLen, l);
      msghdrRelicSize := msghdrRelicSize - l;
      return true, false;
    }

    /** Adds the bytes sent for one slot to the vector. */
    method AddSlot(x: Slot, count: nat) returns (count': nat)
      requires Valid() && count < toSend.Length - 1 && x.tail <= |x.bytes|
      modifies toSend
      ensures count' == count + if Resends(clientSubs, x.entry) && x.entry.msg.tag == SEG_TAG then 2 else 1
      ensures Flat(toSend[..count']) == old(Flat(toSend[..count])) + SlotBytes(clientSubs, flag, x)
    {
      ghost var before, piece := toSend[..count], SlotBytes(clientSubs, flag, x);
      if Resends(clientSubs, x.entry) && x.entry.msg.tag == SEG_TAG {
        var i := |x.bytes| - x.tail;
        toSend[count], toSend[count + 1] := x.bytes[..i], x.bytes[i..];
        count' := count + 2;
        assert toSend[..count'] == before + [x.bytes[..i], x.bytes[i..]];
        FlatTwo(before, x.bytes, i);
      } else {
        toSend[count] := if Resends(clientSubs, x.entry) then x.bytes else FlushBytes(flag);
        count' := count + 1;
        assert toSend[..count'] == before + [piece];
        FlatOne(before, piece);
      }
    }

    /** Lines up the bytes of the first `k` sequences from `s` on, as many as the vector takes. */
    method BuildBatch(slots: seq<Slot>, s: nat, len: nat) returns (k: nat, count: nat, size: nat)
      requires Valid() && Usable(slots) && len > 0 && rest == []
      modifies toSend, this`bufIt
      ensures 1 <= k <= len && k <= count <= 2 * k && count <= toSend.Length && bufIt == s + k
      ensures k == len || count >= toSend.Length - 1
      ensures Flat(toSend[..count]) == RangeBytes(slots, clientSubs, flag, s, k) && size == |Flat(toSend[..count])|
    {
      k, count, size := 0, 0, 0;
      while k < len && count < toSend.Length - 1
        invariant Valid() && k <= len && k <= count <= 2 * k && count <= toSend.Length
        invariant Flat(toSend[..count]) == RangeBytes(slots, clientSubs, flag, s, k)
        invariant size == |Flat(toSend[..count])|
      {
        var x := slots[(s + k) % |slots|];
        ghost var before := Flat(toSend[..count]);
        RangeMore(slots, clientSubs, flag, s, k);
        count := AddSlot(x, count);
        assert Flat(toSend[..count]) == before + SlotBytes(clientSubs, flag, x);
        size := size + if Resends(clientSubs, x.entry) then |x.bytes| else F.HEADER;
        k := k + 1;
      }
      bufIt := s + k;
    }

    /** Hands the batch to the kernel and moves the request on. */
    method SendBatch(k: nat, count: nat, size: nat, answer: int) returns (ok: bool, sent: bool)
      requires Valid() && rest == [] && toSendQueue != [] && 1 <= k <= toSendQueue[0].len
      requires count <= toSend.Length && size == |Flat(toSend[..count])|
      requires bufIt == toSendQueue[0].s + k && bufItNext <= toSendQueue[0].s
      modifies this`toSendQueue, this`relicLen, this`msghdrRelicSize, this`bufItNext, this`wire, this`rest, relic
      ensures Valid() && (sent <==> answer >= 0)
      ensures !sent ==> ok == (answer == -1) && answer < 0 && rest == [] && wire == old(wire)
                        && toSendQueue == old(toSendQueue) && bufItNext == old(bufItNext)
      ensures sent ==> ok && wire + rest == old(wire) + old(Flat(toSend[..count]))
      ensures sent ==> |rest| == size - Taken(answer, size)
      ensures sent ==> toSendQueue == Remaining(old(toSendQueue), k)
      ensures sent ==> bufItNext == if rest == [] then bufIt else old(bufItNext)
    {
      var l := Accepted(answer, size);
      if l < 0 { return l == -1, false; }
      ghost var all := Flat(toSend[..count]);
      wire, rest := wire + all[..l], all[l..];
      var r := toSendQueue[0];
      toSendQueue := if k == r.len then toSendQueue[1..] else [Request(r.s + k, r.len - k)] + toSendQueue[1..];
      if l < size {
        relicLen := ExtractRelicTo(relic, toSend, count, l);
        msghdrRelicSize := size - l;
      } else {
        bufItNext := bufIt;
      }
      return true, true;
    }

    /** The sender refuses the request at the head of the queue. */
    predicate Refused(cap: nat, readSeq: nat)
      requires toSendQueue != []
      reads this
    {
      toSendQueue[0].s < bufItNext || toSendQueue[0].len > cap || toSendQueue[0].s + toSendQueue[0].len > readSeq
    }

    /** Hands over as much of the request at the head of the queue as one batch takes. */
    method ServeEntries(slots: seq<Slot>, answer: int) returns (ok: bool, sent: bool, ghost n: seq<nat>)
      requires Valid() && Usable(slots) && rest == [] && toSendQueue != []
      requires toSendQueue[0].len > 0 && bufItNext <= toSendQueue[0].s
      modifies this`toSendQueue, this`relicLen, this`msghdrRelicSize, this`bufIt, this`bufItNext, this`wire, this`rest, relic, toSend
      ensures Valid() && (sent <==> answer >= 0) && (sent ==> ok) && (!sent ==> ok == (answer == -1) && rest == [] && n == [])
      ensures n == Upto(old(toSendQueue)[0].s, |n|) && |n| <= old(toSendQueue)[0].len && (sent ==> n != [])
      ensures sent ==> |n| == old(toSendQueue)[0].len || 2 * |n| >= toSend.Length - 1
      ensures wire + rest == old(wire) + RangeBytes(slots, clientSubs, flag, old(toSendQueue)[0].s, |n|)
      ensures var size := |RangeBytes(slots, clientSubs, flag, old(toSendQueue)[0].s, |n|)|; |rest| == size - Taken(answer, size)
      ensures toSendQueue == if sent then Remaining(old(toSendQueue), |n|) else old(toSendQueue)
      ensures bufItNext == if sent && rest == [] then old(toSendQueue)[0].s + |n| else old(bufItNext)
      ensures sent ==> bufIt == old(toSendQueue)[0].s + |n|
      ensures !sent ==> wire == old(wire)
      ensures |old(wire)| <= |wire| <= |old(wire)| + (if answer < 0 then 0 else answer) && (rest != [] ==> |wire| == |old(wire)| + answer)
    {
      n := [];
      var r := toSendQueue[0];
      var k, count, size := BuildBatch(slots, r.s, r.len);
      ok, sent := SendBatch(k, count, size, answer);
      if sent { n := Upto(r.s, k); }
    }

    /** One turn of the loop: `n` lists the sequences handed over, `again` says that the loop goes on. */
    method ServeOne(slots: seq<Slot>, cap: nat, readSeq: nat, answer: int) returns (ok: bool, again: bool, ghost n: seq<nat>)
      requires Valid() && Usable(slots) && rest == [] && toSendQueue != []
      modifies this`toSendQueue, this`relicLen, this`msghdrRelicSize, this`bufIt, this`bufItNext, this`wire, this`rest, relic, toSend
      ensures Valid()
      ensures Served(slots, clientSubs, flag, old(wire), old(toSendQueue), n, wire + rest, toSendQueue)
      ensures old(bufItNext) <= bufItNext
      ensures forall i :: 0 <= i < |n| && rest != [] ==> bufItNext <= n[i]
      ensures |rest| <= |BytesOf(slots, clientSubs, flag, n)|
      ensures !ok ==> (old(Refused(cap, readSeq)) || answer < -1) && n == [] && toSendQueue == old(toSendQueue) && bufItNext == old(bufItNext)
      ensures old(Refused(cap, readSeq)) ==> !ok
      ensures again ==> ok && rest == [] && Owed(toSendQueue) < Owed(old(toSendQueue))
      ensures ok && !again ==> old(toSendQueue)[0].len > 0 && (rest != [] || answer == -1)
      ensures |old(wire)| <= |wire| <= |old(wire)| + (if answer < 0 then 0 else answer) && (rest != [] ==> |wire| == |old(wire)| + answer)
      ensures ServedOne(slots, flag, old(State()), State(), |n|) && (!ok ==> State() == old(State()).(bufIt := bufIt))
    {
      n := [];
      ghost var d := State();
      var r, sent := toSendQueue[0], false;
      if r.s < bufItNext || r.len > cap || r.s + r.len > readSeq {
        ok, again := false, false;
      } else if r.len == 0 {
        bufItNext := r.s;
        toSendQueue := toSendQueue[1..];
        ok, again := true, true;
      } else {
        ok, sent, n := ServeEntries(slots, answer);
        again := sent && msghdrRelicSize == 0;
      }
      ServedOneMeans(slots, flag, d, State(), n);
    }

    /** The same, after the object has gone through `ds`. */
    method ServeNext(slots: seq<Slot>, cap: nat, readSeq: nat, answer: int, ghost ds: seq<Desk>)
      returns (ok: bool, again: bool, ghost ds': seq<Desk>)
      requires Valid() && Usable(slots) && rest == [] && toSendQueue != []
      requires ds != [] && ds[|ds| - 1] == State() && Serves(slots, flag, cap, readSeq, ds)
      modifies this`toSendQueue, this`relicLen, this`msghdrRelicSize, this`bufIt, this`bufItNext, this`wire, this`rest, relic, toSend
      ensures Valid() && |old(wire)| <= |wire| && (rest != [] ==> |wire| == |old(wire)| + answer)
      ensures !ok ==> rest == [] && toSendQueue != [] && (Refused(cap, readSeq) || answer < -1)
      ensures again ==> ok && rest == [] && Owed(toSendQueue) < Owed(old(toSendQueue))
      ensures ok && !again ==> old(toSendQueue)[0].len > 0 && (rest != [] || answer == -1)
      ensures ds' == ds + [State()] && Serves(slots, flag, cap, readSeq, ds')
    {
      ghost var m;
      ok, again, m := ServeOne(slots, cap, readSeq, answer);
      ServesMore(slots, flag, cap, readSeq, ds, State(), |m|);
      ds' := ds + [State()];
    }

    /** The loop: serves requests until the kernel takes no more. */
    method Serve(slots: seq<Slot>, cap: nat, readSeq: nat, kernel: seq<int>) returns (ok: bool, ghost used: nat, ghost ds: seq<Desk>)
      requires Valid() && Usable(slots) && rest == []
      modifies this`toSendQueue, this`relicLen, this`msghdrRelicSize, this`bufIt, this`bufItNext, this`wire, this`rest, relic, toSend
      ensures Valid() && ds != [] && ds[0] == old(State()) && ds[|ds| - 1] == State() && Serves(slots, flag, cap, readSeq, ds)
      ensures !ok ==> rest == [] && ((toSendQueue != [] && Refused(cap, readSeq)) || Fails(kernel))
      ensures ok ==> toSendQueue == [] || rest != [] || (used > 0 && AnswerAt(kernel, used - 1) == -1)
      ensures used <= Owed(old(toSendQueue)) && (rest != [] ==> used > 0 && |old(wire)| + AnswerAt(kernel, used - 1) <= |wire|)
    {
      used, ds := 0, [State()];
      var i, again := 0, true;
      ok := true;
      while again && toSendQueue != []
        invariant Valid() && (again ==> ok && rest == [])
        invariant !ok ==> rest == [] && ((toSendQueue != [] && Refused(cap, readSeq)) || Fails(kernel))
        invariant ds != [] && ds[0] == old(State()) && ds[|ds| - 1] == State() && Serves(slots, flag, cap, readSeq, ds)
        invariant used == i <= Owed(old(toSendQueue)) && (again ==> i + Owed(toSendQueue) <= Owed(old(toSendQueue)))
        invariant ok && !again ==> rest != [] || (i > 0 && AnswerAt(kernel, i - 1) == -1)
        invariant |old(wire)| <= |wire| && (rest != [] ==> i > 0 && |old(wire)| + AnswerAt(kernel, i - 1) <= |wire|)
        decreases if again then Owed(toSendQueue) + 1 else 0
      {
        var asks := toSendQueue[0].len > 0;
        ok, again, ds := ServeNext(slots, cap, readSeq, AnswerAt(kernel, i), ds);
        if asks { i := i + 1; }
        used := i;
      }
    }

    /**
     * Serves requests until the kernel takes no more. The kernel's answers come from `kernel`, then it blocks; `used` of
     * them are asked for. `ds` lists what the object went through, `n` the sequences handed over. So it goes well only if
     * every request is served, or the kernel took a batch in part, or none of it. If no request is refused and the kernel
     * takes everything, then exactly the bytes of all the sequences asked for are sent.
     */
    method ServeQueue(slots: seq<Slot>, cap: nat, readSeq: nat, kernel: seq<int>)
      returns (ok: bool, ghost n: seq<nat>, ghost used: nat, ghost ds: seq<Desk>)
      requires Valid() && Usable(slots) && rest == []
      modifies this`toSendQueue, this`relicLen, this`msghdrRelicSize, this`bufIt, this`bufItNext, this`wire, this`rest, relic, toSend
      ensures Valid() && old(bufItNext) <= bufItNext
      ensures Served(slots, clientSubs, flag, old(wire), old(toSendQueue), n, wire + rest, toSendQueue)
      ensures rest != [] ==> Unsent(slots, clientSubs, flag, n, bufItNext, |rest|)
      ensures !ok ==> rest == [] && ((toSendQueue != [] && Refused(cap, readSeq)) || Fails(kernel))
      ensures ok ==> toSendQueue == [] || rest != [] || (used > 0 && AnswerAt(kernel, used - 1) == -1)
      ensures ok && Takes(kernel, Owed(old(toSendQueue)), |BytesOf(slots, clientSubs, flag, Expand(old(toSendQueue)))|) ==>
                toSendQueue == [] && rest == [] && wire == old(wire) + BytesOf(slots, clientSubs, flag, Expand(old(toSendQueue)))
      ensures ds != [] && ds[0] == old(State()) && ds[|ds| - 1] == State() && Serves(slots, flag, cap, readSeq, ds)
    {
      ok, used, ds := Serve(slots, cap, readSeq, kernel);
      n := ServesMeans(slots, flag, cap, readSeq, ds);
      WhenAllIsTaken(slots, clientSubs, flag, old(wire), old(toSendQueue), n, wire, rest, toSendQueue, kernel, used, ok);
    }

    /** Sends what was left over, then serves requests. */
    method Send(slots: seq<Slot>, cap: nat, readSeq: nat, writable: bool, first: int, kernel: seq<int>)
      returns (ok: bool, ghost n: seq<nat>, ghost used: nat, ghost ds: seq<Desk>)
      requires Valid() && Usable(slots)
      modifies this`toSendQueue, this`relicLen, this`msghdrRelicSize, this`bufIt, this`bufItNext, this`wire, this`rest, relic, toSend
      ensures Valid() && SendTurn(slots, flag, cap, readSeq, old(State()), ds, State())
      ensures Served(slots, clientSubs, flag, old(wire + rest), old(toSendQueue), n, wire + rest, toSendQueue)
      ensures rest != [] ==> Unsent(slots, clientSubs, flag, n, bufItNext, |rest|) || Waits(old(State()), State(), n)
      ensures clientSubs == old(clientSubs) && ready == old(ready) && old(bufItNext) <= bufItNext
      ensures |ds[0].rest| == |old(rest)| - if writable then Taken(first, |old(rest)|) else 0
      ensures ok ==> toSendQueue == [] || rest != [] || (used > 0 && AnswerAt(kernel, used - 1) == -1)
      ensures !ok ==> (writable && first < -1) || (toSendQueue != [] && Refused(cap, readSeq)) || Fails(kernel)
    {
      used, ok, ds := 0, true, [State()];
      if writable && msghdrRelicSize > 0 {
        var done;
        ok, done := FlushRelic(first);
        ds := [State()];
      }
      if ok && msghdrRelicSize == 0 { ok, n, used, ds := ServeQueue(slots, cap, readSeq, kernel); }
      n := SendMeans(slots, flag, cap, readSeq, old(State()), ds, State());
    }

    /**
     * One turn: obey what came in, send what was left over, then serve requests. `first` is the kernel's answer
     * for the left-over, `writable` says that the connection takes bytes again.
     */
    method RunOnce(input: Option<string>, slots: seq<Slot>, cap: nat, readSeq: nat, writable: bool, first: int, kernel: seq<int>)
      returns (ok: bool, ghost got: string, ghost n: seq<nat>, ghost used: nat, ghost heard: Ear, ghost ds: seq<Desk>)
      requires Valid() && Usable(slots)
      modifies this, data, relic, toSend
      ensures Valid() && old(bufItNext) <= bufItNext && (input.None? ==> got == []) && old(filledLen) <= data.Length
      ensures input.Some? ==> got <= input.value && |got| == Min(|input.value|, data.Length - old(filledLen))
      ensures clientSubs == heard.subs && ready == heard.ready && (!heard.ok ==> !ok)
      ensures Served(slots, clientSubs, flag, old(wire + rest), heard.queue, n, wire + rest, toSendQueue)
      ensures rest != [] ==> Unsent(slots, clientSubs, flag, n, bufItNext, |rest|) || Waits(old(State()), State(), n)
      ensures Turn(slots, flag, cap, readSeq, old(State()), old(text), got, heard, ds, State(), text)
      ensures input.None? || got != [] ==> heard == Listen(old(Hearing()), old(text) + got, cap).0
      ensures ok ==> toSendQueue == [] || rest != [] || (used > 0 && AnswerAt(kernel, used - 1) == -1)
      ensures ok ==> |ds[0].rest| == |old(rest)| - if writable then Taken(first, |old(rest)|) else 0
      ensures !ok ==> !heard.ok || (input.Some? && got == []) || (writable && first < -1) || (toSendQueue != [] && Refused(cap, readSeq)) || Fails(kernel)
    {
      heard, used := Hearing(), 0;
      ok, got := DoRead(input, cap);
      if input.None? || got != [] { heard := Hearing().(ok := ok); }
      n, ds := [], [State()];
      if ok {
        ok, n, used, ds := Send(slots, cap, readSeq, writable, first, kernel);
      } else {
        NothingServed(slots, clientSubs, flag, wire + rest, toSendQueue);
      }
    }
  }
}
