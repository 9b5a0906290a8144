/**
 * The gate a producer passes before it writes into the sender's ring, hmbdc/pattern/MemRingBuffer.hpp, lines 69-71
 * and 113-117: what the ring's scan promises the protocol.
 */
module PutGate {
  import opened Common
  import opened Messages
  import opened Sender
  import opened Invariants
  import opened Delivery
  import R = BroadcastRing
  import P = BroadcastProofs
  import S = BroadcastScans

  // ---- the ring's decision is the protocol's put ----------------------------------------------

  /** The sender's ring has two consumers: the multicast and the backup cursor. `q` is a producer about to decide. */
  ghost predicate SameRing(r: R.Ring, q: R.Producer, x: Sender, items: seq<Entry>)
  {
    && |r.consumers| == 2 && r.consumers[0].cursor == R.Live(x.rs0) && r.consumers[1].cursor == R.Live(x.rs1)
    && r.cap == x.cap && q.Scan? && q.claimed && q.s == |x.log| && |q.items| == |items|
    && Puttable(items) && |x.log| + |items| < WIRE_SEQ_MAX
  }

  lemma ClearOfBoth(r: R.Ring, rs0: nat, rs1: nat, upto: nat)
    requires |r.consumers| == 2 && r.consumers[0].cursor == R.Live(rs0) && r.consumers[1].cursor == R.Live(rs1)
    ensures P.Clear(r, upto) <==> upto <= r.cap + Min(rs0, rs1)
  {
    assert r.consumers[0].cursor.Live? && r.consumers[1].cursor.Live?;
  }

  /**
   * A producer is let in exactly when the protocol can put its items with the value the scan re-read; its slots have
   * been left by both cursors exactly when the put is a clear one. A steady scan sees to that, and so does any scan that
   * settles on the backup cursor.
   */
  lemma DecideIsPut(anchor: nat, r: R.Ring, p: nat, r': R.Ring, x: Sender, items: seq<Entry>)
    requires P.Inv(anchor, r) && S.AllSound(r) && R.Next(anchor, r, R.Decide(p), r') && SameRing(r, r.producers[p], x, items)
    ensures r.producers[p].best < 2
    ensures var low := if r.producers[p].best == 0 then x.rs0 else x.rs1;
      && (P.Admits(r, r.producers[p], R.Decide(p)) <==> CanPut(x, items, low))
      && (CanPut(x, items, low) ==> (P.ClearGrant(r, R.Decide(p)) <==> ClearPut(x, StepPut(items, low))))
      && (R.Steady(r, R.Decide(p)) && CanPut(x, items, low) ==> ClearPut(x, StepPut(items, low)))
      && (r.producers[p].best == 1 && x.rs1 <= x.rs0 && CanPut(x, items, low) ==> ClearPut(x, StepPut(items, low)))
  {
    var q := r.producers[p];
    var low := if q.best == 0 then x.rs0 else x.rs1;
    assert r.consumers[q.best].cursor == R.Live(low);
    ClearOfBoth(r, x.rs0, x.rs1, q.s + |q.items|);
    if R.Steady(r, R.Decide(p)) { S.MoverStaysSound(anchor, r, R.Decide(p), r'); }
  }

  /**
   * The scan settles on the multicast cursor, whose move on may make it overshoot, only if it compares the two while they
   * are equal. (The value compared, `held`, was read from the backup cursor before, and cursors do not go back.)
   */
  lemma SettlesOnFirstOnlyIfEqual(r: R.Ring, q: R.Producer, p: nat, held: nat, rs0: nat, rs1: nat)
    requires |r.consumers| == 2 && r.consumers[0].cursor == R.Live(rs0) && r.consumers[1].cursor == R.Live(rs1)
    requires q.Scan? && q.i == 1 && q.best == 0 && q.held == Some(R.Live(held)) && held <= rs1 <= rs0
    ensures R.Move(r, q, R.Compare(p)).best == 0 <==> held == rs1 == rs0
  {
  }

  // ---- clear puts are what retention needs ----------------------------------------------------

  /** Exactly: the log never runs away from the backup cursor if and only if every put of the run is clear. */
  lemma RoomIffPutsAreClear(states: seq<System>, steps: seq<Step>)
    requires Run(states, steps)
    ensures (forall i :: 0 <= i < |states| ==> HasRoom(states[i].snd)) <==> ClearRun(states, steps)
  {
    if ClearRun(states, steps) {
      forall i | 0 <= i < |states| ensures HasRoom(states[i].snd) { ClearRunHasRoom(states, steps, i); }
    }
    if forall i :: 0 <= i < |states| ==> HasRoom(states[i].snd) {
      forall i | 0 <= i < |steps| ensures ClearPut(states[i].snd, steps[i]) {
        Reachable(states, steps, i);
        assert Next(states[i], steps[i], states[i + 1]) && HasRoom(states[i + 1].snd);
      }
    }
  }
}
