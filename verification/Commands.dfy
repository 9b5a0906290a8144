/**
 * The text a receiver writes on the backup connection, and how the sender reads it:
 * hmbdc/tips/reliable/BackupRecvSessionT.hpp, lines 192-206 and 262-270; BackupSendSessionT.hpp, lines 216-269.
 */
module Commands {
  import opened Common
  import opened Messages
  import opened Receiver
  import opened Sender

  const TAB := '\t'
  const INT_MAX := 0x7fff_ffff

  // ---- writing --------------------------------------------------------------------------------

  predicate IsDigit(c: char) { '0' <= c <= '9' }

  function Digit(d: nat): (c: char)
    requires d < 10
    ensures IsDigit(c) && DigitValue(c) == d
  {
    ('0' as int + d) as char
  }

  function DigitValue(c: char): nat
    requires IsDigit(c)
  {
    c as int - '0' as int
  }

  function Decimal(n: nat): (s: string)
    ensures s != [] && forall i :: 0 <= i < |s| ==> IsDigit(s[i])
  {
    if n < 10 then [Digit(n)] else Decimal(n / 10) + [Digit(n % 10)]
  }

  /** The text of a command before its tab. */
  function Token(c: Command): string
  {
    match c
    case Subscribe(tag) => "+" + Decimal(tag)
    case AllSent => "+"
    case Report(s, len) => "=" + (Decimal(s) + ("," + Decimal(len)))
  }

  function Encode(c: Command): string { Token(c) + [TAB] }

  function EncodeAll(cs: seq<Command>): string
  {
    if cs == [] then [] else Encode(cs[0]) + EncodeAll(cs[1..])
  }

  // ---- reading --------------------------------------------------------------------------------

  /** Length of the run of digits at the head of `s`. */
  function Run(s: string): (n: nat)
    ensures n <= |s| && (forall i :: 0 <= i < n ==> IsDigit(s[i])) && (n < |s| ==> !IsDigit(s[n]))
  {
    if s == [] || !IsDigit(s[0]) then 0 else 1 + Run(s[1..])
  }

  function Value(s: string): nat
    requires forall i :: 0 <= i < |s| ==> IsDigit(s[i])
  {
    if s == [] then 0 else 10 * Value(s[..|s| - 1]) + DigitValue(s[|s| - 1])
  }

  /** `stoi`: the number the digits spell, or an exception when there are none or too many. */
  function StoI(s: string): Option<nat>
  {
    if Run(s) == 0 || Value(s[..Run(s)]) > INT_MAX then None else Some(Value(s[..Run(s)]))
  }

  /** `sscanf` of "%lu,%zu"; numbers that do not fit become the largest one. */
  function ScanTwo(s: string): Option<(nat, nat)>
  {
    var n := Run(s);
    if n == 0 || n == |s| || s[n] != ',' then None
    else
      var m := Run(s[n + 1..]);
      if m == 0 then None else Some((Min(Value(s[..n]), SEQ_MAX), Min(Value(s[n + 1..][..m]), SEQ_MAX)))
  }

  /** What the sender makes of the text before a tab. */
  datatype Heard = Cmd(c: Command) | Unsubscribe(tag: Tag) | Ignored | Bad

  function Parse(token: string): Heard
  {
    if |token| == 0 then Ignored
    else if |token| == 1 then Cmd(AllSent)
    else if token[0] == '+' then
      match StoI(token[1..]) case None => Bad case Some(n) => Cmd(Subscribe(n % 65536))
    else if token[0] == '-' then
      match StoI(token[1..]) case None => Bad case Some(n) => Unsubscribe(n % 65536)
    else if token[0] == '=' then
      match ScanTwo(token[1..]) case None => Bad case Some(p) => Cmd(Report(p.0, p.1))
    else Ignored
  }

  /** Position of the first tab, or the length. */
  function Find(s: string): (i: nat)
    ensures i <= |s| && (forall k :: 0 <= k < i ==> s[k] != TAB) && (i < |s| ==> s[i] == TAB)
  {
    if s == [] || s[0] == TAB then 0 else 1 + Find(s[1..])
  }

  function Hear(e: Ear, token: string, cap: nat): Ear
  {
    match Parse(token)
    case Cmd(c) => Obey1(e, c, cap)
    case Unsubscribe(tag) => e.(subs := e.subs - {tag})
    case Ignored => e
    case Bad => e.(ok := false)
  }

  /** Reads every complete command in `s`, and the text it leaves for later. */
  function Listen(e: Ear, s: string, cap: nat): (r: (Ear, string))
    decreases |s|
  {
    if !e.ok || Find(s) == |s| then (e, s)
    else
      var e' := Hear(e, s[..Find(s)], cap);
      if e'.ok then Listen(e', s[Find(s) + 1..], cap) else (e', s)
  }

  // ---- laws -----------------------------------------------------------------------------------

  lemma {:induction false} ValueOfDecimal(n: nat)
    ensures Value(Decimal(n)) == n
  {
    var s := Decimal(n);
    if n < 10 {
      assert s[..|s| - 1] == [];
    } else {
      ValueOfDecimal(n / 10);
      assert s[..|s| - 1] == Decimal(n / 10);
    }
  }

  lemma {:induction false} RunOfDigits(d: string, more: string)
    requires (forall i :: 0 <= i < |d| ==> IsDigit(d[i])) && (more != [] ==> !IsDigit(more[0]))
    ensures Run(d + more) == |d| && (d + more)[..|d|] == d && (d + more)[|d|..] == more
  {
    if d == [] {
      assert d + more == more;
    } else {
      assert (d + more)[1..] == d[1..] + more;
      RunOfDigits(d[1..], more);
    }
  }

  predicate Sendable(c: Command) { c.Report? ==> c.s <= SEQ_MAX && c.len <= SEQ_MAX }

  predicate Digits(d: string) { d != [] && forall i :: 0 <= i < |d| ==> IsDigit(d[i]) }

  lemma TwoScanned(a: string, b: string)
    requires Digits(a) && Digits(b)
    ensures ScanTwo(a + ("," + b)) == Some((Min(Value(a), SEQ_MAX), Min(Value(b), SEQ_MAX)))
  {
    var t := a + ("," + b);
    RunOfDigits(a, "," + b);
    RunOfDigits(b, []);
    assert b + [] == b && b[..|b|] == b;
    assert t[..|a|] == a && t[|a|] == ',' && t[|a| + 1..] == b;
  }

  lemma TwoSurvive(s: nat, len: nat)
    requires s <= SEQ_MAX && len <= SEQ_MAX
    ensures ScanTwo(Decimal(s) + ("," + Decimal(len))) == Some((s, len))
  {
    TwoScanned(Decimal(s), Decimal(len));
    ValueOfDecimal(s);
    ValueOfDecimal(len);
  }

  lemma TokenHasNoTab(c: Command)
    ensures forall i :: 0 <= i < |Token(c)| ==> Token(c)[i] != TAB
  {
    match c
    case Subscribe(tag) => DigitsHaveNoTab(Decimal(tag));
    case AllSent =>
    case Report(s, len) => DigitsHaveNoTab(Decimal(s)); DigitsHaveNoTab(Decimal(len));
  }

  lemma DigitsHaveNoTab(d: string)
    requires forall i :: 0 <= i < |d| ==> IsDigit(d[i])
    ensures forall i :: 0 <= i < |d| ==> d[i] != TAB
  {
  }

  lemma SubscribeSurvives(tag: Tag)
    ensures StoI(Decimal(tag)) == Some(tag)
  {
    ValueOfDecimal(tag);
    RunOfDigits(Decimal(tag), []);
    assert Decimal(tag) + [] == Decimal(tag) && Decimal(tag)[..|Decimal(tag)|] == Decimal(tag);
  }

  lemma ParseNumbered(head: char, text: string)
    requires text != []
    ensures head == '+' ==> Parse([head] + text) == match StoI(text) case None => Bad case Some(n) => Cmd(Subscribe(n % 65536))
    ensures head == '=' ==> Parse([head] + text) == match ScanTwo(text) case None => Bad case Some(p) => Cmd(Report(p.0, p.1))
  {
    assert ([head] + text)[1..] == text;
  }

  /** Every command is read back as it was written, with its numbers. */
  lemma CommandSurvives(c: Command)
    requires Sendable(c)
    ensures Parse(Token(c)) == Cmd(c)
  {
    match c
    case Subscribe(tag) =>
      SubscribeSurvives(tag);
      ParseNumbered('+', Decimal(tag));
    case AllSent =>
    case Report(s, len) =>
      TwoSurvive(s, len);
      ParseNumbered('=', Decimal(s) + ("," + Decimal(len)));
  }

  lemma FindInTwo(a: string, b: string)
    ensures Find(a) < |a| ==> Find(a + b) == Find(a)
    ensures Find(a) == |a| ==> Find(a + b) == |a| + Find(b)
  {
    if a == [] {
      assert a + b == b;
    } else if a[0] != TAB {
      assert (a + b)[1..] == a[1..] + b;
      FindInTwo(a[1..], b);
    }
  }

  /** The first command of `a` is the first command of `a + b`. */
  lemma FirstStays(a: string, b: string)
    requires Find(a) < |a|
    ensures Find(a + b) == Find(a) < |a + b|
    ensures (a + b)[..Find(a)] == a[..Find(a)] && (a + b)[Find(a) + 1..] == a[Find(a) + 1..] + b
  {
    FindInTwo(a, b);
    CutConcat(a, b, Find(a));
    CutConcat(a, b, Find(a) + 1);
  }

  lemma CutConcat(a: string, b: string, k: nat)
    requires k <= |a|
    ensures (a + b)[..k] == a[..k] && (a + b)[k..] == a[k..] + b
  {
  }

  /** With a complete command in front: it is obeyed, and the rest is heard if that went well. */
  lemma ListenOnce(e: Ear, s: string, e': Ear, cap: nat)
    requires e.ok && Find(s) < |s| && e' == Hear(e, s[..Find(s)], cap)
    ensures Listen(e, s, cap) == if e'.ok then Listen(e', s[Find(s) + 1..], cap) else (e', s)
  {
  }

  /** The same with more text behind. */
  lemma ListenOnceInTwo(e: Ear, a: string, b: string, e': Ear, cap: nat)
    requires e.ok && Find(a) < |a| && e' == Hear(e, a[..Find(a)], cap)
    ensures Listen(e, a + b, cap) == if e'.ok then Listen(e', a[Find(a) + 1..] + b, cap) else (e', a + b)
  {
    FirstStays(a, b);
    ListenOnce(e, a + b, e', cap);
  }

  /** Reading `a` and later `b` hears what reading both at once hears. */
  lemma {:induction false} ListenInTwo(e: Ear, a: string, b: string, cap: nat)
    ensures Listen(e, a + b, cap) == Listen(Listen(e, a, cap).0, Listen(e, a, cap).1 + b, cap)
    decreases |a|
  {
    if e.ok && Find(a) < |a| {
      var e', rest := Hear(e, a[..Find(a)], cap), a[Find(a) + 1..];
      ListenOnce(e, a, e', cap);
      ListenOnceInTwo(e, a, b, e', cap);
      if e'.ok {
        calc {
          Listen(e, a + b, cap);
        ==
          Listen(e', rest + b, cap);
        == { ListenInTwo(e', rest, b, cap); }
          Listen(Listen(e', rest, cap).0, Listen(e', rest, cap).1 + b, cap);
        }
      }
    }
  }

  function Joined(chunks: seq<string>): string
  {
    if chunks == [] then [] else chunks[0] + Joined(chunks[1..])
  }

  function Feed(e: Ear, kept: string, chunks: seq<string>, cap: nat): (Ear, string)
    decreases |chunks|
  {
    var r := Listen(e, kept, cap);
    if chunks == [] then r else Feed(r.0, r.1 + chunks[0], chunks[1..], cap)
  }

  /** However the text is cut, the same commands are heard and the same text is kept. */
  lemma {:induction false} ChunkingDoesNotMatter(e: Ear, kept: string, chunks: seq<string>, cap: nat)
    ensures Feed(e, kept, chunks, cap) == Listen(e, kept + Joined(chunks), cap)
    decreases |chunks|
  {
    var r, all := Listen(e, kept, cap), Joined(chunks);
    if chunks == [] {
      assert kept + all == kept;
    } else {
      ChunkingDoesNotMatter(r.0, r.1 + chunks[0], chunks[1..], cap);
      ListenInTwo(e, kept, all, cap);
      assert r.1 + all == r.1 + chunks[0] + Joined(chunks[1..]);
    }
  }

  /** The state after the commands themselves. */
  function Obey(e: Ear, cs: seq<Command>, cap: nat): Ear
    decreases |cs|
  {
    if cs == [] then e else Obey(Obey1(e, cs[0], cap), cs[1..], cap)
  }

  lemma FirstToken(e: Ear, t: string, rest: string, cap: nat)
    requires e.ok && forall i :: 0 <= i < |t| ==> t[i] != TAB
    ensures Find(t + ([TAB] + rest)) == |t| < |t + ([TAB] + rest)|
    ensures (t + ([TAB] + rest))[..|t|] == t && (t + ([TAB] + rest))[|t| + 1..] == rest
  {
    FindInTwo(t, [TAB] + rest);
    NoTab(t);
  }

  /** Whatever commands a receiver writes, the sender does exactly these, in order. */
  lemma {:induction false} TextCarriesTheCommands(e: Ear, cs: seq<Command>, cap: nat)
    requires e.ok && forall i :: 0 <= i < |cs| ==> Sendable(cs[i])
    ensures Listen(e, EncodeAll(cs), cap) == (Obey(e, cs, cap), [])
    decreases |cs|
  {
    if cs != [] {
      HearsOne(e, cs[0], EncodeAll(cs[1..]), cap);
      TextCarriesTheCommands(Obey1(e, cs[0], cap), cs[1..], cap);
    }
  }

  lemma HearsOne(e: Ear, c: Command, rest: string, cap: nat)
    requires e.ok && Sendable(c)
    ensures Listen(e, Encode(c) + rest, cap) == Listen(Obey1(e, c, cap), rest, cap) && Obey1(e, c, cap).ok
  {
    CommandSurvives(c);
    TokenHasNoTab(c);
    assert Encode(c) + rest == Token(c) + ([TAB] + rest);
    FirstToken(e, Token(c), rest, cap);
  }

  /** A withdrawn subscription, written with a tab behind it, takes exactly that tag away. */
  lemma WithdrawalIsHeard(e: Ear, tag: Tag, rest: string, cap: nat)
    requires e.ok
    ensures Listen(e, "-" + Decimal(tag) + ([TAB] + rest), cap) == Listen(e.(subs := e.subs - {tag}), rest, cap)
  {
    var t := "-" + Decimal(tag);
    SubscribeSurvives(tag);
    assert t[1..] == Decimal(tag);
    DigitsHaveNoTab(Decimal(tag));
    FirstToken(e, t, rest, cap);
    assert Hear(e, t, cap) == e.(subs := e.subs - {tag});
  }

  /** Text that is no command ends the session's hearing; what follows is not obeyed. */
  lemma NonsenseEndsHearing(e: Ear, rest: string, cap: nat)
    requires e.ok
    ensures Listen(e, "=x" + ([TAB] + rest), cap).0 == e.(ok := false)
    ensures Listen(e, "+x" + ([TAB] + rest), cap).0 == e.(ok := false)
  {
    FirstToken(e, "=x", rest, cap);
    FirstToken(e, "+x", rest, cap);
    assert "=x"[1..] == "x" && "+x"[1..] == "x";
  }

  lemma NoTab(s: string)
    requires forall i :: 0 <= i < |s| ==> s[i] != TAB
    ensures Find(s) == |s|
  {
  }
}
