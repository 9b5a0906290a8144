/** The backup server's bookkeeping: hmbdc/tips/reliable/BackupSendServerT.hpp, lines 93-168. */
module SendServer {
  import opened Common
  import opened Sender
  import D = Delivery
  import opened CleanupQueues

  /** A session's progress, and whether its turn went well. */
  datatype Turn = Turn(ok: bool, bufItNext: nat)

  /** The smallest of `bound` and the progress of the sessions that go on. */
  function Least(bound: nat, turns: seq<Turn>): (n: nat)
    ensures n <= bound && forall i :: 0 <= i < |turns| && turns[i].ok ==> n <= turns[i].bufItNext
    ensures n == bound || exists i :: 0 <= i < |turns| && turns[i].ok && turns[i].bufItNext == n
    decreases |turns|
  {
    if turns == [] then bound
    else
      var n := Least(bound, turns[..|turns| - 1]);
      var t := turns[|turns| - 1];
      if t.ok && n > t.bufItNext then t.bufItNext else n
  }

  function GoOn(turns: seq<Turn>): (r: seq<nat>)
    decreases |turns|
  {
    if turns == [] then []
    else
      var rest, t := GoOn(turns[..|turns| - 1]), turns[|turns| - 1];
      if t.ok then rest + [t.bufItNext] else rest
  }

  /** A session that goes on has this progress. */
  predicate GoesOnAt(turns: seq<Turn>, b: nat) { exists i :: 0 <= i < |turns| && turns[i].ok && turns[i].bufItNext == b }

  ghost predicate LiveAt(links: map<nat, Link>, b: nat) { exists id :: id in links && links[id].alive && links[id].bufItNext == b }

  /** The sessions' turns, as the protocol's links see them: those that go on are the live ones. */
  ghost predicate TurnsOf(turns: seq<Turn>, links: map<nat, Link>) { forall b: nat :: GoesOnAt(turns, b) <==> LiveAt(links, b) }

  /** The loop's minimum is the one the protocol's retention step asks for. */
  lemma LeastIsTheProtocols(x: Sender, links: map<nat, Link>, turns: seq<Turn>)
    requires TurnsOf(turns, links)
    ensures IsLeast(x, links, Least(x.rs0, turns))
  {
    var least := Least(x.rs0, turns);
    forall id | id in links && links[id].alive ensures least <= links[id].bufItNext {
      assert LiveAt(links, links[id].bufItNext) && GoesOnAt(turns, links[id].bufItNext);
    }
    if least != x.rs0 { assert GoesOnAt(turns, least) && LiveAt(links, least); }
  }

  lemma RetainIsNext(y: System, turns: seq<Turn>)
    requires D.Inv(y) && !y.snd.stopped && TurnsOf(turns, y.links)
    ensures var least := Least(y.snd.rs0, turns); Next(y, StepRetain(least), y.(snd := Retain(y.snd, least)))
  {
    LeastIsTheProtocols(y.snd, y.links, turns);
  }

  /** Nobody goes on if and only if no link is live. */
  lemma NobodyIsLive(links: map<nat, Link>, turns: seq<Turn>)
    requires TurnsOf(turns, links)
    ensures GoOn(turns) == [] <==> forall id :: id in links ==> !links[id].alive
  {
    NobodyGoesOn(turns);
    if i :| 0 <= i < |turns| && turns[i].ok { assert GoesOnAt(turns, turns[i].bufItNext) && LiveAt(links, turns[i].bufItNext); }
    if id :| id in links && links[id].alive { assert LiveAt(links, links[id].bufItNext) && GoesOnAt(turns, links[id].bufItNext); }
  }

  lemma {:induction false} NobodyGoesOn(turns: seq<Turn>)
    ensures GoOn(turns) == [] <==> forall i :: 0 <= i < |turns| ==> !turns[i].ok
    decreases |turns|
  {
    if turns != [] {
      var init := turns[..|turns| - 1];
      NobodyGoesOn(init);
      assert forall i :: 0 <= i < |init| ==> init[i] == turns[i];
    }
  }

  class AsyncBackupSendServer {
    const replay: nat
    /** The live sessions' `bufItNext_`. */
    var sessions: seq<nat>
    var leastIt: nat
    /** The backup cursor, ring consumer 1. */
    var readSeq1: nat
    const queue: CleanupQueue
    /** Attachments released, in order. */
    var released: seq<Cleanup>

    /** The object is at the protocol's state `x`. */
    ghost predicate Matches(x: Sender)
      reads this, queue
    {
      && x.replay == replay && x.leastIt == leastIt && x.rs1 == readSeq1
      && x.cleanup == queue.entries && x.released == released
    }

    constructor (replayHistory: nat, shared: CleanupQueue)
      ensures replay == replayHistory && queue == shared && sessions == [] && leastIt == SEQ_MAX && readSeq1 == 0 && released == []
    {
      replay, queue := replayHistory, shared;
      sessions, leastIt, readSeq1, released := [], SEQ_MAX, 0, [];
    }

    /** Releases every queued attachment strictly below `bound`, oldest first. */
    method ReleaseBelow(bound: nat)
      modifies this`released, queue
      ensures var n := Expired(old(queue.entries), bound);
              queue.entries == old(queue.entries)[n..] && released == old(released) + old(queue.entries)[..n]
    {
      ghost var done := 0;
      while queue.entries != []
        invariant done <= |old(queue.entries)| && queue.entries == old(queue.entries)[done..]
        invariant released == old(released) + old(queue.entries)[..done]
        invariant Expired(old(queue.entries), bound) == done + Expired(queue.entries, bound)
        decreases |queue.entries|
      {
        if bound > queue.entries[0].s {
          released := released + [queue.entries[0]];
          queue.entries := queue.entries[1..];
          done := done + 1;
        } else {
          break;
        }
      }
    }

    /** The least progress of what goes on, and of the multicast cursor. */
    method LeastProgress(turns: seq<Turn>, readSeq0: nat) returns (newSeq: nat)
      modifies this`sessions
      ensures newSeq == Least(readSeq0, turns) && sessions == GoOn(turns)
    {
      newSeq := readSeq0;
      sessions := [];
      var i := 0;
      while i < |turns|
        invariant 0 <= i <= |turns| && newSeq == Least(readSeq0, turns[..i]) && sessions == GoOn(turns[..i])
      {
        assert turns[..i + 1][..i] == turns[..i];
        if turns[i].ok {
          if newSeq > turns[i].bufItNext { newSeq := turns[i].bufItNext; }
          sessions := sessions + [turns[i].bufItNext];
        }
        i := i + 1;
      }
      assert turns[..i] == turns;
    }

    /** Moves the backup cursor up to `newSeq` and releases what is behind it, unless it did so the last time. */
    method Retire(newSeq: nat)
      modifies this`leastIt, this`readSeq1, this`released, queue
      ensures leastIt == newSeq && readSeq1 == if old(leastIt) == newSeq then old(readSeq1) else Max(old(readSeq1), newSeq)
      ensures var n := if old(leastIt) == newSeq then 0 else Expired(old(queue.entries), newSeq);
              queue.entries == old(queue.entries)[n..] && released == old(released) + old(queue.entries)[..n]
    {
      if leastIt != newSeq {
        ReleaseBelow(newSeq);
        if readSeq1 <= newSeq { readSeq1 := newSeq; }
      }
      leastIt := newSeq;
    }

    /**
     * One turn: sessions whose turn failed are dropped, the backup cursor moves up to what every other session and
     * the multicast cursor `readSeq0` no longer need, less the history to replay, and attachments behind it are
     * released. This is the protocol's retention.
     */
    method RunOnce(turns: seq<Turn>, readSeq0: nat, ghost x: Sender)
      requires Matches(x) && readSeq0 == x.rs0
      modifies this`sessions, this`leastIt, this`readSeq1, this`released, queue
      ensures sessions == GoOn(turns) && Matches(Retain(x, Least(readSeq0, turns)))
      ensures old(readSeq1) <= readSeq1 && (old(readSeq1) < readSeq1 ==> readSeq1 + replay == Least(readSeq0, turns))
      ensures var least := Least(readSeq0, turns);
              D.RetentionInv(x) && readSeq0 < SEQ_MAX && old(readSeq1) + replay < least ==> readSeq1 + replay == least
    {
      var newSeq := LeastProgress(turns, readSeq0);
      newSeq := if replay < newSeq then newSeq - replay else 0;
      Retire(newSeq);
    }

    /** At the end every queued attachment is released. */
    method Stop(ghost x: Sender)
      requires Matches(x)
      modifies this`released, queue
      ensures Matches(Halt(x)) && queue.entries == [] && released == old(released) + old(queue.entries)
    {
      while queue.entries != []
        invariant released + queue.entries == old(released) + old(queue.entries)
        decreases |queue.entries|
      {
        released := released + [queue.entries[0]];
        queue.entries := queue.entries[1..];
      }
    }

    /** Drops a session that is furthest behind. */
    method KillSlowestSession() returns (victim: nat)
      modifies this`sessions
      ensures old(sessions) == [] ==> sessions == []
      ensures old(sessions) != [] ==>
                && victim < |old(sessions)| && (forall i :: 0 <= i < |old(sessions)| ==> old(sessions)[victim] <= old(sessions)[i])
                && sessions == old(sessions)[..victim] + old(sessions)[victim + 1..]
    {
      victim := 0;
      if sessions == [] { return; }
      var least, i := sessions[0], 1;
      while i < |sessions|
        invariant 1 <= i <= |sessions| && victim < i && least == sessions[victim]
        invariant forall k :: 0 <= k < i ==> least <= sessions[k]
      {
        if sessions[i] < least { least, victim := sessions[i], i; }
        i := i + 1;
      }
      sessions := sessions[..victim] + sessions[victim + 1..];
    }
  }
}
