/** Recording messages into a file and playing them back: hmbdc/tips/Bag.hpp, lines 101-109 and 243-296. */
module Bag {
  import opened Common
  import opened Messages
  import F = Frames

  const RECORD_HEAD := 24
  const FILE_HEAD := 16
  /** Size of the attachment head a message with an attachment starts with; playing overwrites it. */
  const ATT_HEAD := 40
  /** In place of an attachment's length: there is none. */
  const NO_ATT: nat := SEQ_MAX

  datatype Record = Record(ts: nat, tag: Tag, payload: seq<byte>, att: Option<seq<byte>>)

  /** Which records to play: these tags, as signed 16-bit numbers, and this stretch of time. */
  datatype Filter = Filter(tags: Option<set<int>>, range: Option<(nat, nat)>)

  /** What the player hands over. The first bytes of a message with an attachment are its own bookkeeping. */
  datatype Played = Played(ts: nat, tag: Tag, body: seq<byte>, att: Option<seq<byte>>)

  // ---- writing --------------------------------------------------------------------------------

  predicate Fits(r: Record, width: nat)
  {
    r.ts <= SEQ_MAX && |r.payload| == width && (r.att.Some? ==> |r.att.value| < NO_ATT)
  }

  function Head(ts: nat, attLen: nat, tag: Tag): (h: seq<byte>)
    ensures |h| == RECORD_HEAD
  {
    F.ToLe(ts, 8) + F.ToLe(attLen, 8) + F.ToLe(tag, 2) + [0, 0, 0, 0, 0, 0]
  }

  function Encode(r: Record): seq<byte>
  {
    Head(r.ts, if r.att.Some? then |r.att.value| else NO_ATT, r.tag) + r.payload + if r.att.Some? then r.att.value else []
  }

  function EncodeAll(rs: seq<Record>): seq<byte>
  {
    if rs == [] then [] else Encode(rs[0]) + EncodeAll(rs[1..])
  }

  // ---- reading --------------------------------------------------------------------------------

  function AsInt16(tag: Tag): int { if tag < 0x8000 then tag else tag - 0x1_0000 }

  predicate Past(f: Filter, ts: nat) { f.range.Some? && ts >= f.range.value.0 + f.range.value.1 }

  predicate Passes(f: Filter, ts: nat, tag: Tag)
  {
    (f.tags.Some? ==> AsInt16(tag) in f.tags.value) && (f.range.Some? ==> ts >= f.range.value.0)
  }

  function Play(r: Record): Played
  {
    Played(r.ts, r.tag, if r.att.Some? then r.payload[Min(ATT_HEAD, |r.payload|)..] else r.payload, r.att)
  }

  datatype RecordHead = RecordHead(ts: nat, attLen: nat, tag: Tag)

  function ReadHead(h: seq<byte>): RecordHead
    requires |h| == RECORD_HEAD
  {
    RecordHead(F.Le(h[..8]), F.Le(h[8..16]), Le16(h[16], h[17]))
  }

  /** Size of what follows a record's head. */
  function BodySize(h: RecordHead, width: nat): nat { width + if h.attLen == NO_ATT then 0 else h.attLen }

  /** The record made of a head and what follows it. */
  function Make(h: RecordHead, body: seq<byte>, width: nat): Record
    requires |body| == BodySize(h, width)
  {
    Record(h.ts, h.tag, body[..width], if h.attLen == NO_ATT then None else Some(body[width..]))
  }

  /** The next record to play from `bytes`, and where reading goes on. */
  function Next(bytes: seq<byte>, width: nat, f: Filter): (r: Option<(Played, seq<byte>)>)
    ensures r.Some? ==> |r.value.1| < |bytes|
    decreases |bytes|
  {
    if |bytes| < RECORD_HEAD then None
    else
      var h := ReadHead(bytes[..RECORD_HEAD]);
      var end := RECORD_HEAD + BodySize(h, width);
      if Past(f, h.ts) || |bytes| < end then None
      else if Passes(f, h.ts, h.tag) then Some((Play(Make(h, bytes[RECORD_HEAD..end], width)), bytes[end..]))
      else Next(bytes[end..], width, f)
  }

  /** Everything repeated playing yields. */
  function PlayAll(bytes: seq<byte>, width: nat, f: Filter): seq<Played>
    decreases |bytes|
  {
    match Next(bytes, width, f)
    case None => []
    case Some(p) => [p.0] + PlayAll(p.1, width, f)
  }

  /** The records before the first one at or past the end of the range, less those the filter turns down. */
  function Expected(rs: seq<Record>, f: Filter): seq<Played>
  {
    if rs == [] || Past(f, rs[0].ts) then []
    else (if Passes(f, rs[0].ts, rs[0].tag) then [Play(rs[0])] else []) + Expected(rs[1..], f)
  }

  // ---- the round trip -------------------------------------------------------------------------

  lemma TagSurvives(tag: Tag)
    ensures var two := F.ToLe(tag, 2); Le16(two[0], two[1]) == tag
  {
    assert F.ToLe(tag, 2) == [tag % 256] + F.ToLe(tag / 256, 1);
    assert F.ToLe(tag / 256, 1) == [(tag / 256) % 256] + F.ToLe(tag / 256 / 256, 0);
  }

  lemma Pieces(a: seq<byte>, b: seq<byte>, c: seq<byte>, d: seq<byte>)
    requires |a| == 8 && |b| == 8 && |c| == 2
    ensures var h := a + b + c + d; h[..8] == a && h[8..16] == b && h[16] == c[0] && h[17] == c[1]
  {
  }

  lemma HeadSurvives(ts: nat, attLen: nat, tag: Tag)
    requires ts <= SEQ_MAX && attLen <= SEQ_MAX
    ensures ReadHead(Head(ts, attLen, tag)) == RecordHead(ts, attLen, tag)
  {
    F.StartSeqSurvives(ts);
    F.StartSeqSurvives(attLen);
    TagSurvives(tag);
    Pieces(F.ToLe(ts, 8), F.ToLe(attLen, 8), F.ToLe(tag, 2), [0, 0, 0, 0, 0, 0]);
  }

  function HeadOf(r: Record): RecordHead { RecordHead(r.ts, if r.att.Some? then |r.att.value| else NO_ATT, r.tag) }

  function BodyOf(r: Record): seq<byte> { r.payload + if r.att.Some? then r.att.value else [] }

  lemma BodySurvives(r: Record, width: nat)
    requires Fits(r, width)
    ensures |BodyOf(r)| == BodySize(HeadOf(r), width) && Make(HeadOf(r), BodyOf(r), width) == r
  {
    assert BodyOf(r)[..width] == r.payload;
    if r.att.Some? { assert BodyOf(r)[width..] == r.att.value; }
  }

  /** One recorded message at the head of the file, as the player sees it. */
  lemma NextOfEncoding(r: Record, more: seq<byte>, width: nat, f: Filter)
    requires Fits(r, width)
    ensures Next(Encode(r) + more, width, f) ==
              if Past(f, r.ts) then None
              else if Passes(f, r.ts, r.tag) then Some((Play(r), more))
              else Next(more, width, f)
  {
    var h := HeadOf(r);
    var head, bytes, end := Head(h.ts, h.attLen, h.tag), Encode(r) + more, RECORD_HEAD + |BodyOf(r)|;
    HeadSurvives(h.ts, h.attLen, h.tag);
    BodySurvives(r, width);
    assert Encode(r) == head + BodyOf(r);
    assert bytes[..RECORD_HEAD] == head && bytes[RECORD_HEAD..end] == BodyOf(r) && bytes[end..] == more;
  }

  /** Playing a recorded bag yields the records in range that pass, in order, as they were recorded. */
  lemma {:induction false} BagRoundTrip(rs: seq<Record>, width: nat, f: Filter)
    requires forall i :: 0 <= i < |rs| ==> Fits(rs[i], width)
    ensures PlayAll(EncodeAll(rs), width, f) == Expected(rs, f)
  {
    if rs != [] {
      NextOfEncoding(rs[0], EncodeAll(rs[1..]), width, f);
      BagRoundTrip(rs[1..], width, f);
      if !Past(f, rs[0].ts) && !Passes(f, rs[0].ts, rs[0].tag) {
        assert PlayAll(EncodeAll(rs), width, f) == PlayAll(EncodeAll(rs[1..]), width, f);
      }
    }
  }

  /** What a file starts with. */
  function FileHead(created: nat, cfg: seq<byte>): seq<byte> { F.ToLe(created, 8) + F.ToLe(|cfg|, 8) + cfg }

  /** A player that opens the file finds the records behind the configuration. */
  lemma RecordedFileIsPlayed(created: nat, cfg: seq<byte>, rs: seq<Record>, width: nat, f: Filter)
    requires created <= SEQ_MAX && |cfg| <= SEQ_MAX && forall i :: 0 <= i < |rs| ==> Fits(rs[i], width)
    ensures var file := FileHead(created, cfg) + EncodeAll(rs);
      && |file| >= FILE_HEAD && FILE_HEAD + F.Le(file[8..FILE_HEAD]) <= |file|
      && PlayAll(file[FILE_HEAD + F.Le(file[8..FILE_HEAD])..], width, f) == Expected(rs, f)
  {
    var a, b, more := F.ToLe(created, 8), F.ToLe(|cfg|, 8), EncodeAll(rs);
    var file := FileHead(created, cfg) + more;
    F.StartSeqSurvives(|cfg|);
    assert file[8..FILE_HEAD] == b;
    assert file[FILE_HEAD + |cfg|..] == more;
    BagRoundTrip(rs, width, f);
  }

  /** The record is to be played: its tag is asked for, its time is in range, and none before it is past the range. */
  predicate Wanted(rs: seq<Record>, f: Filter, i: nat)
    requires i < |rs|
  {
    var r := rs[i];
    && (f.tags.Some? ==> (if r.tag < 32768 then r.tag as int else r.tag - 65536) in f.tags.value)
    && (f.range.Some? ==> f.range.value.0 <= r.ts)
    && forall k :: 0 <= k <= i && f.range.Some? ==> rs[k].ts < f.range.value.0 + f.range.value.1
  }

  /** `p` is the record `r`, less what playing overwrites of a message with an attachment. */
  predicate IsRecord(p: Played, r: Record)
  {
    && p.ts == r.ts && p.tag == r.tag && p.att == r.att
    && (r.att == None ==> p.body == r.payload)
    && (r.att.Some? ==> |p.body| == (if |r.payload| > 40 then |r.payload| - 40 else 0) && forall i :: 0 <= i < |p.body| ==> p.body[i] == r.payload[40 + i])
  }

  /** The records played: exactly the wanted ones, in the order recorded. `ks` says which. */
  lemma {:induction false} PlayedExactly(rs: seq<Record>, width: nat, f: Filter) returns (ks: seq<nat>)
    requires forall i :: 0 <= i < |rs| ==> Fits(rs[i], width)
    ensures |PlayAll(EncodeAll(rs), width, f)| == |ks| && forall i, j :: 0 <= i < j < |ks| ==> ks[i] < ks[j]
    ensures forall i :: 0 <= i < |ks| ==> ks[i] < |rs| && IsRecord(PlayAll(EncodeAll(rs), width, f)[i], rs[ks[i]])
    ensures forall k :: 0 <= k < |rs| ==> (k in ks <==> Wanted(rs, f, k))
  {
    BagRoundTrip(rs, width, f);
    ks := ExpectedExactly(rs, f);
    forall i | 0 <= i < |ks| ensures IsRecord(Expected(rs, f)[i], rs[ks[i]]) { PlayIsRecord(rs[ks[i]]); }
  }

  lemma PlayIsRecord(r: Record)
    ensures IsRecord(Play(r), r)
  {
  }

  lemma {:induction false} ExpectedExactly(rs: seq<Record>, f: Filter) returns (ks: seq<nat>)
    ensures PlayedAre(rs, Expected(rs, f), ks) && forall i, j :: 0 <= i < j < |ks| ==> ks[i] < ks[j]
    ensures forall k :: 0 <= k < |rs| ==> (k in ks <==> Wanted(rs, f, k))
  {
    if rs == [] || Past(f, rs[0].ts) {
      ks := [];
    } else {
      var more := ExpectedExactly(rs[1..], f);
      var shifted := seq(|more|, i requires 0 <= i < |more| => more[i] + 1);
      Shifted(more, shifted);
      var head, first := if Passes(f, rs[0].ts, rs[0].tag) then [0] else [], if Passes(f, rs[0].ts, rs[0].tag) then [Play(rs[0])] else [];
      ks := head + shifted;
      PlayedInTwo(rs, first, Expected(rs[1..], f), head, shifted);
      forall k | 0 <= k < |rs| ensures k in ks <==> Wanted(rs, f, k) {
        if k > 0 {
          WantedLater(rs, f, k);
          assert k in shifted <==> k - 1 in more;
        }
      }
    }
  }

  lemma Shifted(more: seq<nat>, shifted: seq<nat>)
    requires |shifted| == |more| && forall i :: 0 <= i < |more| ==> shifted[i] == more[i] + 1
    ensures 0 !in shifted && forall k: nat :: k > 0 ==> (k in shifted <==> k - 1 in more)
  {
    forall k: nat | k > 0 ensures k in shifted <==> k - 1 in more {
      if k - 1 in more {
        var i :| 0 <= i < |more| && more[i] == k - 1;
        assert shifted[i] == k;
      }
    }
  }

  /** These are the records `ks`, as played. */
  predicate PlayedAre(rs: seq<Record>, ps: seq<Played>, ks: seq<nat>)
  {
    |ps| == |ks| && forall i :: 0 <= i < |ks| ==> ks[i] < |rs| && ps[i] == Play(rs[ks[i]])
  }

  lemma PlayedInTwo(rs: seq<Record>, a: seq<Played>, b: seq<Played>, j: seq<nat>, k: seq<nat>)
    requires PlayedAre(rs, a, j) && PlayedAre(rs, b, k)
    ensures PlayedAre(rs, a + b, j + k)
  {
  }

  lemma WantedLater(rs: seq<Record>, f: Filter, k: nat)
    requires 0 < k < |rs| && !Past(f, rs[0].ts)
    ensures Wanted(rs, f, k) <==> Wanted(rs[1..], f, k - 1)
  {
    var tail := rs[1..];
    if Wanted(tail, f, k - 1) {
      forall i | 0 <= i <= k && f.range.Some? ensures rs[i].ts < f.range.value.0 + f.range.value.1 {
        if i > 0 { assert tail[i - 1] == rs[i]; }
      }
    }
    if Wanted(rs, f, k) {
      forall i | 0 <= i <= k - 1 && f.range.Some? ensures tail[i].ts < f.range.value.0 + f.range.value.1 {
        assert tail[i] == rs[i + 1];
      }
    }
  }

  lemma {:induction false} EncodeSnoc(rs: seq<Record>, r: Record)
    ensures EncodeAll(rs + [r]) == EncodeAll(rs) + Encode(r)
  {
    if rs == [] {
      assert [r][1..] == [];
    } else {
      assert (rs + [r])[1..] == rs[1..] + [r];
      EncodeSnoc(rs[1..], r);
      assert Encode(rs[0]) + (EncodeAll(rs[1..]) + Encode(r)) == Encode(rs[0]) + EncodeAll(rs[1..]) + Encode(r);
    }
  }

  // ---- the objects ----------------------------------------------------------------------------

  class OutputBag {
    const bufWidth: nat
    var file: seq<byte>
    /** How many messages of each tag. */
    var stats: map<Tag, nat>
    ghost var header: seq<byte>
    ghost var records: seq<Record>

    ghost predicate Valid()
      reads this
    {
      && file == header + EncodeAll(records)
      && (forall i :: 0 <= i < |records| ==> Fits(records[i], bufWidth))
      && forall t: Tag :: Count(records, t) == if t in stats then stats[t] else 0
    }

    constructor (width: nat, created: nat, cfg: seq<byte>)
      ensures Valid() && records == [] && bufWidth == width && header == FileHead(created, cfg)
    {
      bufWidth := width;
      file := F.ToLe(created, 8) + F.ToLe(|cfg|, 8) + cfg;
      stats := map[];
      header := F.ToLe(created, 8) + F.ToLe(|cfg|, 8) + cfg;
      records := [];
    }

    /** Appends a message; `now` is the clock. */
    method RecordMessage(now: nat, tag: Tag, bytes: seq<byte>, att: Option<seq<byte>>)
      requires Valid() && Fits(Record(now, tag, bytes, att), bufWidth)
      modifies this
      ensures Valid() && records == old(records) + [Record(now, tag, bytes, att)] && header == old(header)
    {
      ghost var r := Record(now, tag, bytes, att);
      Appended(header, records, r);
      forall t: Tag ensures Count(records + [r], t) == Count(records, t) + if t == tag then 1 else 0 {
        CountSnoc(records, r, t);
      }
      file := file + Head(now, if att.Some? then |att.value| else NO_ATT, tag);
      file := file + bytes;
      if att.Some? { file := file + att.value; }
      stats := stats[tag := (if tag in stats then stats[tag] else 0) + 1];
      records := records + [r];
    }
  }

  lemma Appended(header: seq<byte>, rs: seq<Record>, r: Record)
    ensures header + EncodeAll(rs + [r]) ==
              if r.att.Some? then header + EncodeAll(rs) + Head(r.ts, |r.att.value|, r.tag) + r.payload + r.att.value
              else header + EncodeAll(rs) + Head(r.ts, NO_ATT, r.tag) + r.payload
  {
    EncodeSnoc(rs, r);
    var attLen, tail := if r.att.Some? then |r.att.value| else NO_ATT, if r.att.Some? then r.att.value else [];
    Flatten(header, EncodeAll(rs), Head(r.ts, attLen, r.tag), r.payload, tail);
  }

  lemma Flatten(a: seq<byte>, b: seq<byte>, c: seq<byte>, d: seq<byte>, e: seq<byte>)
    ensures a + (b + (c + d + e)) == a + b + c + d + e
    ensures e == [] ==> a + b + c + d + e == a + b + c + d
  {
  }

  function Count(rs: seq<Record>, tag: Tag): nat
  {
    if rs == [] then 0 else (if rs[0].tag == tag then 1 else 0) + Count(rs[1..], tag)
  }

  lemma {:induction false} CountSnoc(rs: seq<Record>, r: Record, tag: Tag)
    ensures Count(rs + [r], tag) == Count(rs, tag) + if r.tag == tag then 1 else 0
  {
    if rs == [] {
      assert [r][1..] == [];
    } else {
      assert (rs + [r])[1..] == rs[1..] + [r];
      CountSnoc(rs[1..], r, tag);
    }
  }

  /** `Next`, in terms of a place in the file. */
  lemma NextAt(file: seq<byte>, pos: nat, width: nat, f: Filter)
    requires pos + RECORD_HEAD <= |file|
    ensures var h := ReadHead(file[pos..pos + RECORD_HEAD]);
            var at, end := pos + RECORD_HEAD, pos + RECORD_HEAD + BodySize(h, width);
            Next(file[pos..], width, f) ==
              if Past(f, h.ts) || end > |file| then None
              else if Passes(f, h.ts, h.tag) then Some((Play(Make(h, file[at..end], width)), file[end..]))
              else Next(file[end..], width, f)
  {
    var bytes := file[pos..];
    assert bytes[..RECORD_HEAD] == file[pos..pos + RECORD_HEAD];
    var end := RECORD_HEAD + BodySize(ReadHead(bytes[..RECORD_HEAD]), width);
    if end <= |bytes| {
      assert bytes[RECORD_HEAD..end] == file[pos + RECORD_HEAD..pos + end];
      assert bytes[end..] == file[pos + end..];
    }
  }

  lemma NextSkips(file: seq<byte>, pos: nat, end: nat, width: nat, f: Filter)
    requires pos + RECORD_HEAD <= |file|
    requires var h := ReadHead(file[pos..pos + RECORD_HEAD]);
             end == pos + RECORD_HEAD + BodySize(h, width) <= |file| && !Past(f, h.ts) && !Passes(f, h.ts, h.tag)
    ensures Next(file[pos..], width, f) == Next(file[end..], width, f)
  {
    NextAt(file, pos, width, f);
  }

  class InputBag {
    const file: seq<byte>
    const bufWidth: nat
    const filter: Filter
    var pos: nat
    var open: bool

    ghost predicate Valid()
      reads this
    {
      pos <= |file|
    }

    /** What is left to read; nothing once closed. */
    ghost function Left(): seq<byte>
      requires Valid()
      reads this
    {
      if open then file[pos..] else []
    }

    constructor (bytes: seq<byte>, width: nat, f: Filter)
      requires |bytes| >= FILE_HEAD && FILE_HEAD + F.Le(bytes[8..FILE_HEAD]) <= |bytes|
      ensures Valid() && file == bytes && bufWidth == width && filter == f
      ensures Left() == bytes[FILE_HEAD + F.Le(bytes[8..FILE_HEAD])..]
    {
      file, bufWidth, filter, open := bytes, width, f, true;
      pos := FILE_HEAD + F.Le(bytes[8..FILE_HEAD]);
    }

    /** What playing from here on yields. */
    ghost function Coming(at: nat): Option<(Played, seq<byte>)>
      requires at <= |file|
    {
      Next(file[at..], bufWidth, filter)
    }

    /** Looks at one record: plays it, passes over it, or finds that there is no more to play. */
    method OneRecord() returns (r: Option<Played>, stop: bool)
      requires Valid() && pos + RECORD_HEAD <= |file|
      modifies this`pos
      ensures Valid() && (stop ==> r == None && Coming(old(pos)) == None)
      ensures r.Some? ==> Coming(old(pos)) == Some((r.value, file[pos..]))
      ensures !stop && r == None ==> old(pos) < pos && Coming(old(pos)) == Coming(pos)
    {
      var h := ReadHead(file[pos..pos + RECORD_HEAD]);
      var at, end := pos + RECORD_HEAD, pos + RECORD_HEAD + BodySize(h, bufWidth);
      r, stop := None, false;
      if Past(filter, h.ts) || end > |file| {
        NextAt(file, pos, bufWidth, filter);
        return None, true;
      }
      if Passes(filter, h.ts, h.tag) {
        NextAt(file, pos, bufWidth, filter);
        r := Some(Play(Make(h, file[at..end], bufWidth)));
      } else {
        NextSkips(file, pos, end, bufWidth, filter);
      }
      pos := end;
    }

    /** Plays the next record that passes, or closes the bag. */
    method PlayNext() returns (r: Option<Played>)
      requires Valid()
      modifies this
      ensures Valid()
      ensures match Next(old(Left()), bufWidth, filter)
              case None => r == None && Left() == []
              case Some(p) => r == Some(p.0) && Left() == p.1
    {
      r := None;
      if !open { return; }
      var stop := false;
      while !stop && pos + RECORD_HEAD <= |file|
        invariant Valid() && open && r == None && (if stop then Coming(old(pos)) == None else Coming(old(pos)) == Coming(pos))
        decreases !stop, |file| - pos
      {
        r, stop := OneRecord();
        if r.Some? { return; }
      }
      open := false;
    }
  }
}
