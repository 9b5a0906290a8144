/** Messages as the reliable multicast sees them. */
module Messages {

  type byte = b: int | 0 <= b < 256
  type Tag = t: int | 0 <= t < 65536

  /** System tags of hmbdc/app/Message.hpp: the head of an attachment train and its segments. */
  const START_TAG: Tag := 5
  const SEG_TAG: Tag := 6

  function Le16(lo: byte, hi: byte): Tag { lo + 256 * hi }

  /** What travels on the wire behind the transport header. */
  datatype Msg = Msg(tag: Tag, body: seq<byte>)

  /** The tag of the message a train head announces: the head's first field. */
  function Underlying(m: Msg): Tag
  {
    if |m.body| >= 2 then Le16(m.body[0], m.body[1]) else 0
  }

  /** A ring entry. The last three fields never reach the wire: they are used on the sending side only. */
  datatype Entry = Entry(msg: Msg, segUnder: Tag, segCount: nat, att: nat)

  /** The sender resends an entry only if every tag it stands for is subscribed; else it sends a flush. */
  predicate Resends(subs: set<Tag>, e: Entry)
  {
    && e.msg.tag in subs
    && (e.msg.tag == SEG_TAG ==> e.segUnder in subs)
    && (e.msg.tag == START_TAG ==> Underlying(e.msg) in subs)
  }

  /** The receiver's filter on the multicast path. */
  predicate UdpPasses(subs: set<Tag>, m: Msg)
  {
    (if m.tag == START_TAG then Underlying(m) else m.tag) in subs
  }

  /** A segment of a train nobody here subscribed to: the multicast path cannot tell and lets it pass. */
  predicate Stray(subs: set<Tag>, e: Entry)
  {
    e.msg.tag == SEG_TAG && e.segUnder !in subs
  }
}
