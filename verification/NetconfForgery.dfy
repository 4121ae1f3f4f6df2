/** Sessions laid out read by read, and what a device can say in those whose success is false. */
module NetconfForgery {
  import opened Basics
  import opened NetconfChannel
  import opened NetconfWire
  import opened NetconfDevice
  import opened NetconfVerdict

  // ------------------------------------------------------------------ reads laid out in advance

  /** One read: cut off behind `text`, or complete, with `lost` behind the marker in its last chunk. */
  datatype Item = CutOff(text: string) | Whole(text: string, lost: string)

  function Got(it: Item): string {
    if it.Whole? then it.text + EOM + it.lost else it.text
  }

  function Receives(it: Item): seq<Recv> {
    if it.Whole? then [Chunk(Got(it))] else [Chunk(it.text), TimesOut]
  }

  function Script(items: seq<Item>): seq<Recv> {
    if items == [] then [] else Receives(items[0]) + Script(items[1..])
  }

  function AsRead(it: Item): Read {
    Read(if it.Whole? then Complete else TimedOut, it.text, Got(it))
  }

  predicate Lacks(s: string, c: char) {
    forall i :: 0 <= i < |s| ==> s[i] != c
  }

  predicate Readable(it: Item) {
    it.text != "" && Lacks(it.text, ']')
  }

  lemma NoEomWithout(t: string, z: string, j: int)
    requires Lacks(t, ']') && 0 <= j < |t|
    ensures !EomAt(t + z, j)
  {
    EomIsChars(t + z, j);
  }

  lemma FindBehind(t: string, z: string)
    requires Lacks(t, ']')
    ensures Find(t + EOM + z, 0) == Some(|t|)
    ensures Find(t, 0) == None
  {
    var s := t + EOM + z;
    assert s[|t|..|t| + |EOM|] == EOM;
    assert EomAt(s, |t|);
    assert s == t + (EOM + z) && t == t + "";
    forall j | 0 <= j < |t|
      ensures !EomAt(s, j) && !EomAt(t, j)
    {
      NoEomWithout(t, EOM + z, j);
      NoEomWithout(t, "", j);
    }
  }

  lemma ReadOfWhole(text: string, lost: string, rest: seq<Recv>)
    requires text != "" && Lacks(text, ']')
    ensures ReadFrom([Chunk(text + EOM + lost)] + rest, "") == (Read(Complete, text, text + EOM + lost), rest)
  {
    var got, script := text + EOM + lost, [Chunk(text + EOM + lost)] + rest;
    FindBehind(text, lost);
    assert Find("", 0).None? && script[1..] == rest && "" + got == got;
    assert got[..|text|] == text;
    assert ReadFrom(script, "") == ReadFrom(rest, got);
  }

  lemma ReadOfCut(text: string, rest: seq<Recv>)
    requires text != "" && Lacks(text, ']')
    ensures ReadFrom([Chunk(text), TimesOut] + rest, "") == (Read(TimedOut, text, text), rest)
  {
    var script := [Chunk(text), TimesOut] + rest;
    FindBehind(text, "");
    assert Find("", 0).None? && script[1..] == [TimesOut] + rest && ([TimesOut] + rest)[1..] == rest;
    assert "" + text == text;
    assert ReadFrom(script, "") == ReadFrom([TimesOut] + rest, text);
  }

  lemma ReadOfItem(it: Item, rest: seq<Recv>)
    requires Readable(it)
    ensures ReadFrom(Receives(it) + rest, "") == (AsRead(it), rest)
  {
    if it.Whole? {
      ReadOfWhole(it.text, it.lost, rest);
    } else {
      ReadOfCut(it.text, rest);
    }
  }

  lemma {:induction false} ReadsOfItems(items: seq<Item>, n: nat, j: nat)
    requires j < n <= |items| && forall it :: it in items ==> Readable(it)
    ensures Reads(Script(items), n)[j] == AsRead(items[j])
    decreases n
  {
    ReadOfItem(items[0], Script(items[1..]));
    if j > 0 {
      forall it | it in items[1..]
        ensures Readable(it)
      {
        assert it in items;
      }
      ReadsOfItems(items[1..], n - 1, j - 1);
    }
  }

  // ------------------------------------------------------------------ and the messages they read

  /** Reads, and the messages they take. */
  datatype Tape = Tape(items: seq<Item>, says: seq<string>)

  function Joined(items: seq<Item>): string {
    if items == [] then "" else Joined(items[..|items| - 1]) + Got(items[|items| - 1])
  }

  function Min(a: nat, b: nat): nat {
    if a < b then a else b
  }

  /** What the first `n` reads take, and what the first `n` messages are on the wire. */
  function JoinedTo(items: seq<Item>, n: nat): string {
    Joined(items[..Min(n, |items|)])
  }

  function WireTo(says: seq<string>, n: nat): string {
    Wire(says[..Min(n, |says|)])
  }

  /** If the device says one message per read, no read takes anything it has not said yet. */
  ghost predicate FitsAll(items: seq<Item>, says: seq<string>) {
    forall n: nat :: JoinedTo(items, n) <= WireTo(says, n)
  }

  ghost predicate Fits(t: Tape) {
    Joined(t.items) == Wire(t.says) && |t.says| <= |t.items| && FitsAll(t.items, t.says)
  }

  lemma OneMore(items: seq<Item>, it: Item)
    ensures Joined(items + [it]) == Joined(items) + Got(it)
  {
    assert (items + [it])[..|items|] == items;
  }

  lemma OneMoreSaid(says: seq<string>, m: string)
    ensures Wire(says + [m]) == Wire(says) + (m + EOM)
  {
    assert (says + [m])[..|says|] == says;
  }

  lemma WireToMore(says: seq<string>, more: seq<string>, n: nat)
    ensures WireTo(says, n) <= WireTo(says + more, n)
    ensures n >= |says + more| ==> WireTo(says + more, n) == Wire(says + more)
  {
    var k, l := Min(n, |says|), Min(n, |says + more|);
    assert (says + more)[..l][..k] == says[..k];
    WirePrefix((says + more)[..l], k);
    assert (says + more)[..|says + more|] == says + more;
  }

  lemma FrontOfMore(items: seq<Item>, it: Item, n: nat)
    ensures (items + [it])[..Min(n, |items + [it]|)] == if n <= |items| then items[..n] else items + [it]
  {
  }

  lemma JoinedToMore(items: seq<Item>, it: Item, n: nat)
    ensures JoinedTo(items + [it], n) == if n <= |items| then JoinedTo(items, n) else Joined(items + [it])
  {
    FrontOfMore(items, it, n);
  }

  /** Another read, of part of what has been said with `more`. */
  lemma FitsMore(items: seq<Item>, says: seq<string>, it: Item, more: seq<string>)
    requires FitsAll(items, says) && |says + more| <= |items| + 1
    requires Joined(items) + Got(it) <= Wire(says + more)
    ensures FitsAll(items + [it], says + more)
    ensures Joined(items + [it]) == Joined(items) + Got(it)
  {
    OneMore(items, it);
    forall n: nat
      ensures JoinedTo(items + [it], n) <= WireTo(says + more, n)
    {
      WireToMore(says, more, n);
      JoinedToMore(items, it, n);
      assert JoinedTo(items, n) <= WireTo(says, n);
    }
  }

  // ------------------------------------------------------------------ saying a message

  /** A message read in one go. */
  function Say(t: Tape, m: string): Tape {
    Tape(t.items + [Whole(m, "")], t.says + [m])
  }

  lemma SayFits(t: Tape, m: string)
    requires Fits(t)
    ensures Fits(Say(t, m))
  {
    OneMoreSaid(t.says, m);
    assert m + EOM + "" == m + EOM;
    FitsMore(t.items, t.says, Whole(m, ""), [m]);
  }

  /** A message of which a first read gets `a` and a second one the rest, `b`. */
  function SayCut(t: Tape, a: string, b: string): Tape {
    Tape(t.items + [CutOff(a)] + [Whole(b, "")], t.says + [a + b])
  }

  lemma SayCutFits(t: Tape, a: string, b: string)
    requires Fits(t)
    ensures Fits(SayCut(t, a, b))
  {
    OneMoreSaid(t.says, a + b);
    assert Wire(t.says) + (a + b + EOM) == Wire(t.says) + a + (b + EOM);
    FitsMore(t.items, t.says, CutOff(a), [a + b]);
    assert b + EOM + "" == b + EOM && t.says + [a + b] + [] == t.says + [a + b];
    FitsMore(t.items + [CutOff(a)], t.says + [a + b], Whole(b, ""), []);
  }

  /** A message in three reads. */
  function SayTwice(t: Tape, a: string, b: string, c: string): Tape {
    Tape(t.items + [CutOff(a)] + [CutOff(b)] + [Whole(c, "")], t.says + [a + b + c])
  }

  lemma SayTwiceFits(t: Tape, a: string, b: string, c: string)
    requires Fits(t)
    ensures Fits(SayTwice(t, a, b, c))
  {
    var m := a + b + c;
    OneMoreSaid(t.says, m);
    assert Wire(t.says) + (m + EOM) == Wire(t.says) + a + (b + c + EOM);
    assert Wire(t.says) + (m + EOM) == Wire(t.says) + a + b + (c + EOM);
    FitsMore(t.items, t.says, CutOff(a), [m]);
    assert t.says + [m] + [] == t.says + [m] && c + EOM + "" == c + EOM;
    FitsMore(t.items + [CutOff(a)], t.says + [m], CutOff(b), []);
    FitsMore(t.items + [CutOff(a)] + [CutOff(b)], t.says + [m], Whole(c, ""), []);
  }

  /** A message behind which the next one, `m'`, is lost. */
  function SayLosing(t: Tape, m: string, m': string): Tape {
    Tape(t.items + [Whole(m, m' + EOM)], t.says + [m, m'])
  }

  lemma SayLosingFits(t: Tape, m: string, m': string)
    requires Fits(t) && |t.says| < |t.items|
    ensures Fits(SayLosing(t, m, m'))
  {
    OneMoreSaid(t.says, m);
    OneMoreSaid(t.says + [m], m');
    assert t.says + [m] + [m'] == t.says + [m, m'];
    assert Wire(t.says) + (m + EOM) + (m' + EOM) == Wire(t.says) + (m + EOM + (m' + EOM));
    FitsMore(t.items, t.says, Whole(m, m' + EOM), [m, m']);
  }

  /** The same in two reads. */
  function SayCutLosing(t: Tape, a: string, b: string, m': string): Tape {
    Tape(t.items + [CutOff(a)] + [Whole(b, m' + EOM)], t.says + [a + b] + [m'])
  }

  lemma SayCutLosingFits(t: Tape, a: string, b: string, m': string)
    requires Fits(t)
    ensures Fits(SayCutLosing(t, a, b, m'))
  {
    var m := a + b;
    OneMoreSaid(t.says, m);
    OneMoreSaid(t.says + [m], m');
    assert Wire(t.says) + (m + EOM) == Wire(t.says) + a + (b + EOM);
    FitsMore(t.items, t.says, CutOff(a), [m]);
    assert Wire(t.says) + (m + EOM) + (m' + EOM) == Wire(t.says) + a + (b + EOM + (m' + EOM));
    FitsMore(t.items + [CutOff(a)], t.says + [m], Whole(b, m' + EOM), [m']);
  }

  // ------------------------------------------------------------------ sessions

  function SessionOf(t: Tape, accepted: seq<bool>): Session {
    Session(Answered(accepted), t.says, Script(t.items), [false, false, false, false, false, false])
  }

  ghost predicate Playable(t: Tape) {
    Fits(t) && |t.says| == MESSAGES && |t.items| >= MESSAGES && forall it :: it in t.items ==> Readable(it)
  }

  lemma TapeRead(t: Tape, accepted: seq<bool>, j: nat)
    requires Playable(t) && j < MESSAGES
    ensures TheReads(SessionOf(t, accepted))[j] == AsRead(t.items[j])
  {
    ReadsOfItems(t.items, MESSAGES, j);
  }

  lemma NextItem(items: seq<Item>, n: nat)
    requires 0 < n <= |items|
    ensures Joined(items[..n]) == Joined(items[..n - 1]) + Got(items[n - 1])
  {
    assert items[..n] == items[..n - 1] + [items[n - 1]];
    OneMore(items[..n - 1], items[n - 1]);
  }

  lemma {:induction false} TapeTaken(t: Tape, accepted: seq<bool>, n: nat)
    requires Playable(t) && n <= MESSAGES
    ensures Taken(TheReads(SessionOf(t, accepted)), n) == Joined(t.items[..n])
  {
    if n > 0 {
      TapeTaken(t, accepted, n - 1);
      TapeRead(t, accepted, n - 1);
      NextItem(t.items, n);
    }
  }

  lemma TapeConsistent(d: Target, t: Tape, accepted: seq<bool>)
    requires Playable(t) && |accepted| == |DEPLOY| && (accepted[0] ==> d.candidate == d.running)
    requires WellSpoken(SessionOf(t, accepted))
    ensures Consistent(d, SessionOf(t, accepted))
  {
    var s := SessionOf(t, accepted);
    forall j | 0 <= j < MESSAGES && Available(s, j) <= MESSAGES
      ensures Taken(TheReads(s), j + 1) <= Wire(s.says[..Available(s, j)])
    {
      TapeTaken(t, accepted, j + 1);
      assert JoinedTo(t.items, j + 1) <= WireTo(t.says, j + 1);
    }
  }

  // ------------------------------------------------------------------ what the device says

  const OPEN := "<rpc-reply>"
  const GOOD := "<ok/>"
  const NOTE := "<note/>"
  const CLOSE := "</rpc-reply>"
  const FRONT := OPEN + GOOD
  const MIDDLE := NOTE + GOOD
  const LAST := NOTE + GOOD + CLOSE
  const BACK := MIDDLE + LAST

  /** The reply to an accepted RPC; it may have several success markers, as that of a device with
      several routing engines does. */
  const REPLY := FRONT + BACK

  const REFUSED := OPEN + (SEVERITY + ERROR + END_SEVERITY) + CLOSE
  const HELLO_FRONT := "<hel"
  const HELLO_BACK := "lo/>"
  const HELLO := HELLO_FRONT + HELLO_BACK
  const SANITY := "<software/>"

  predicate Calm(s: string) {
    Lacks(s, ']') && Lacks(s, 'v') && Lacks(s, 'V')
  }

  predicate Silent(s: string) {
    Lacks(s, 'k') && Lacks(s, 'K') && Lacks(s, 'm') && Lacks(s, 'M')
  }

  lemma LacksBoth(a: string, b: string, c: char)
    requires Lacks(a, c) && Lacks(b, c)
    ensures Lacks(a + b, c)
  {
  }

  lemma CalmBoth(a: string, b: string)
    requires Calm(a) && Calm(b)
    ensures Calm(a + b)
  {
    LacksBoth(a, b, ']');
    LacksBoth(a, b, 'v');
    LacksBoth(a, b, 'V');
  }

  lemma SilentBoth(a: string, b: string)
    requires Silent(a) && Silent(b)
    ensures Silent(a + b)
  {
    LacksBoth(a, b, 'k');
    LacksBoth(a, b, 'K');
    LacksBoth(a, b, 'm');
    LacksBoth(a, b, 'M');
  }

  lemma SilentHasNoMarker(s: string)
    requires Silent(s)
    ensures !HasMarker(s)
  {
    forall m, i | 0 <= m < |MARKERS| && 0 <= i <= |s|
      ensures !OccursAt(s, MARKERS[m], i)
    {
      assert MARKERS[m][2] == 'k' || MARKERS[m][2] == 'm';
      if i + 2 < |s| { assert Lower(s[i + 2]) != MARKERS[m][2]; }
    }
  }

  lemma CalmIsFramed(m: string)
    requires Lacks(m, ']') && |m| > 0 && m[0] == '<'
    ensures Framed(m)
  {
    forall j
      ensures !EomAt(m, j)
    {
      EomIsChars(m, j);
    }
  }

  /** A calm text with a success marker is judged good. */
  lemma GoodText(before: string, after: string)
    requires Calm(before) && Calm(after)
    ensures Calm(before + GOOD + after) && RpcOk(before + GOOD + after)
  {
    var s := before + GOOD + after;
    CalmBoth(before, GOOD);
    CalmBoth(before + GOOD, after);
    assert OccursAt(s, MARKERS[0], |before|);
    assert Contains(s, MARKERS[0]);
    forall i | 0 <= i <= |s|
      ensures !OccursAt(s, SEVERITY, i)
    {
      assert SEVERITY[9] == 'v';
      if i + 9 < |s| { assert Lower(s[i + 9]) != SEVERITY[9]; }
    }
  }

  /** The atoms. */
  lemma Atoms()
    ensures Calm(OPEN) && Calm(GOOD) && Calm(NOTE) && Calm(CLOSE)
    ensures Calm(HELLO_FRONT) && Calm(HELLO_BACK) && Calm(SANITY)
    ensures Silent(HELLO_FRONT) && Silent(HELLO_BACK) && Silent(SANITY)
    ensures Silent(OPEN) && Silent(CLOSE)
  {
  }

  lemma SeverityAtoms()
    ensures Silent(SEVERITY) && Silent(ERROR) && Silent(END_SEVERITY)
    ensures Lacks(SEVERITY, ']') && Lacks(ERROR, ']') && Lacks(END_SEVERITY, ']')
  {
  }

  /** A success marker is found in every piece of a reply. */
  lemma Pieces()
    ensures RpcOk(FRONT) && RpcOk(MIDDLE) && RpcOk(LAST) && RpcOk(BACK) && RpcOk(REPLY)
    ensures Calm(FRONT) && Calm(MIDDLE) && Calm(LAST) && Calm(BACK) && Calm(REPLY)
  {
    Atoms();
    assert FRONT == OPEN + GOOD + "" && MIDDLE == NOTE + GOOD + "";
    GoodText(OPEN, "");
    GoodText(NOTE, "");
    GoodText(NOTE, CLOSE);
    assert BACK == NOTE + GOOD + LAST;
    GoodText(NOTE, LAST);
    assert REPLY == OPEN + GOOD + BACK;
    GoodText(OPEN, BACK);
  }

  lemma Messages()
    ensures Framed(HELLO) && Framed(REPLY) && Framed(REFUSED) && Framed(SANITY)
    ensures !HasMarker(HELLO) && !HasMarker(REFUSED) && !HasMarker(SANITY)
    ensures Lacks(REFUSED, ']') && Lacks(HELLO, ']')
  {
    Atoms();
    SeverityAtoms();
    Pieces();
    SilentBoth(HELLO_FRONT, HELLO_BACK);
    CalmBoth(HELLO_FRONT, HELLO_BACK);
    RefusedIsSilent();
    SilentHasNoMarker(HELLO);
    SilentHasNoMarker(REFUSED);
    SilentHasNoMarker(SANITY);
    CalmIsFramed(HELLO);
    CalmIsFramed(REPLY);
    CalmIsFramed(REFUSED);
    CalmIsFramed(SANITY);
  }

  lemma RefusedIsSilent()
    ensures Silent(REFUSED) && Lacks(REFUSED, ']') && REFUSED[0] == '<'
  {
    Atoms();
    SeverityAtoms();
    SilentBoth(SEVERITY, ERROR);
    SilentBoth(SEVERITY + ERROR, END_SEVERITY);
    SilentBoth(OPEN, SEVERITY + ERROR + END_SEVERITY);
    SilentBoth(OPEN + (SEVERITY + ERROR + END_SEVERITY), CLOSE);
    LacksBoth(SEVERITY, ERROR, ']');
    LacksBoth(SEVERITY + ERROR, END_SEVERITY, ']');
    LacksBoth(OPEN, SEVERITY + ERROR + END_SEVERITY, ']');
    LacksBoth(OPEN + (SEVERITY + ERROR + END_SEVERITY), CLOSE, ']');
  }

  // ------------------------------------------------------------------ two cut-off reads

  predicate IsPair(a: nat, b: nat) {
    a < b <= 4 && b >= 2
  }

  function Front(m: nat): string {
    if m == 0 then HELLO_FRONT else FRONT
  }

  function Back(m: nat): string {
    if m == 0 then HELLO_BACK else BACK
  }

  /** The hello, the lock's reply, then replies to accepted RPCs. */
  function Text(m: nat, lock: string): string {
    if m == 0 then HELLO else if m == 1 then lock else REPLY
  }

  /** The first `k` messages, with reads `a` and `b` cut off. */
  function Said(a: nat, b: nat, lock: string, k: nat): Tape
    requires IsPair(a, b)
  {
    if k == 0 then Tape([], []) else SaidNext(Said(a, b, lock, k - 1), a, b, lock, k - 1)
  }

  /** Message `m`, cut or not. */
  function SaidNext(t: Tape, a: nat, b: nat, lock: string, m: nat): Tape {
    if m == a && b == a + 1 then SayTwice(t, FRONT, MIDDLE, LAST)
    else if m == a || m == b - 1 then SayCut(t, Front(m), Back(m))
    else Say(t, Text(m, lock))
  }

  lemma NextFits(t: Tape, a: nat, b: nat, lock: string, m: nat) returns (t': Tape)
    requires Fits(t)
    ensures t' == SaidNext(t, a, b, lock, m) && Fits(t')
  {
    t' := SaidNext(t, a, b, lock, m);
    if m == a && b == a + 1 {
      SayTwiceFits(t, FRONT, MIDDLE, LAST);
    } else if m == a || m == b - 1 {
      SayCutFits(t, Front(m), Back(m));
    } else {
      SayFits(t, Text(m, lock));
    }
  }

  lemma EmptyFits() returns (t: Tape)
    ensures t == Tape([], []) && Fits(t)
  {
    t := Tape([], []);
  }

  lemma SaidFits(a: nat, b: nat, lock: string) returns (t: Tape)
    requires IsPair(a, b)
    ensures t == Said(a, b, lock, 4) && Fits(t)
  {
    t := EmptyFits();
    t := NextFits(t, a, b, lock, 0);
    assert t == Said(a, b, lock, 1);
    t := NextFits(t, a, b, lock, 1);
    assert t == Said(a, b, lock, 2);
    t := NextFits(t, a, b, lock, 2);
    assert t == Said(a, b, lock, 3);
    t := NextFits(t, a, b, lock, 3);
  }

  lemma ThreePieces()
    ensures FRONT + MIDDLE + LAST == REPLY
  {
  }

  lemma {:induction false} SaidSays(a: nat, b: nat, lock: string, k: nat)
    requires IsPair(a, b) && (a <= 1 ==> lock == REPLY)
    ensures |Said(a, b, lock, k).says| == k
    ensures forall m: nat :: m < k ==> Said(a, b, lock, k).says[m] == Text(m, lock)
  {
    if k > 0 {
      SaidSays(a, b, lock, k - 1);
      ThreePieces();
    }
  }

  function Count(a: nat, b: nat, k: nat): nat {
    k + (if a < k then 1 else 0) + if b - 1 < k then 1 else 0
  }

  /** The reads so far: only `a` and `b` are cut off, and from the third on each shows a success. */
  predicate Forges(items: seq<Item>, a: nat, b: nat) {
    && (forall j: nat :: j < |items| && items[j].CutOff? ==> j == a || j == b)
    && (forall j: nat :: 2 <= j < |items| ==> RpcOk(items[j].text))
    && (forall j: nat :: j < |items| ==> Readable(items[j]))
  }

  lemma ForgesMore(items: seq<Item>, it: Item, a: nat, b: nat)
    requires Forges(items, a, b) && Readable(it)
    requires it.CutOff? ==> |items| == a || |items| == b
    requires |items| >= 2 ==> RpcOk(it.text)
    ensures Forges(items + [it], a, b)
  {
  }

  lemma TextsReadable(m: nat, lock: string)
    requires lock == REPLY || lock == REFUSED
    ensures Front(m) != "" && Back(m) != "" && Text(m, lock) != "" && MIDDLE != "" && LAST != ""
    ensures Lacks(Front(m), ']') && Lacks(Back(m), ']') && Lacks(Text(m, lock), ']')
    ensures Lacks(MIDDLE, ']') && Lacks(LAST, ']')
  {
    Atoms();
    Pieces();
    Messages();
  }

  lemma NextItems(t: Tape, a: nat, b: nat, lock: string, m: nat)
    requires IsPair(a, b) && (lock == REPLY || lock == REFUSED) && (a <= 1 ==> lock == REPLY) && m < 4
    requires |t.items| == Count(a, b, m) && Forges(t.items, a, b)
    ensures var items := SaidNext(t, a, b, lock, m).items; |items| == Count(a, b, m + 1) && Forges(items, a, b)
  {
    TextsReadable(m, lock);
    Pieces();
    var items := t.items;
    if m == a && b == a + 1 {
      ForgesMore(items, CutOff(FRONT), a, b);
      ForgesMore(items + [CutOff(FRONT)], CutOff(MIDDLE), a, b);
      ForgesMore(items + [CutOff(FRONT)] + [CutOff(MIDDLE)], Whole(LAST, ""), a, b);
    } else if m == a || m == b - 1 {
      ForgesMore(items, CutOff(Front(m)), a, b);
      ForgesMore(items + [CutOff(Front(m))], Whole(Back(m), ""), a, b);
    } else {
      ForgesMore(items, Whole(Text(m, lock), ""), a, b);
    }
  }

  lemma {:induction false} SaidItems(a: nat, b: nat, lock: string, k: nat) returns (t: Tape)
    requires IsPair(a, b) && (lock == REPLY || lock == REFUSED) && (a <= 1 ==> lock == REPLY) && k <= 4
    ensures t == Said(a, b, lock, k) && |t.items| == Count(a, b, k) && Forges(t.items, a, b)
  {
    if k > 0 {
      var t0 := SaidItems(a, b, lock, k - 1);
      NextItems(t0, a, b, lock, k - 1);
      t := SaidNext(t0, a, b, lock, k - 1);
    } else {
      t := Tape([], []);
    }
  }

  /** Then the sanity reply, the refusal of the final commit, and the unlock's reply. */
  function Refusing(t: Tape): Tape {
    Say(Say(Say(t, SANITY), REFUSED), REPLY)
  }

  lemma RefusingFits(t: Tape)
    requires Fits(t)
    ensures Fits(Refusing(t))
  {
    SayFits(t, SANITY);
    SayFits(Say(t, SANITY), REFUSED);
    SayFits(Say(Say(t, SANITY), REFUSED), REPLY);
  }

  lemma LateTexts()
    ensures Readable(Whole(SANITY, "")) && Readable(Whole(REFUSED, "")) && Readable(Whole(REPLY, ""))
  {
    Atoms();
    Pieces();
    Messages();
  }

  lemma RefusingItems(t: Tape, a: nat, b: nat)
    requires |t.items| == 6 && Forges(t.items, a, b)
    ensures var items := Refusing(t).items;
      && |items| == 9 && (forall j: nat :: j < 9 ==> Readable(items[j]))
      && RpcOk(items[2].text) && RpcOk(items[3].text) && RpcOk(items[5].text)
      && forall j: nat :: j < MESSAGES && items[j].CutOff? ==> j == a || j == b
  {
    LateTexts();
    var items := Refusing(t).items;
    assert items == t.items + [Whole(SANITY, ""), Whole(REFUSED, ""), Whole(REPLY, "")];
  }

  /** The confirmed commit's own reply, or part of it, is read where the final commit's belongs. */
  function PairTape(a: nat, b: nat, lock: string): Tape
    requires IsPair(a, b)
  {
    Refusing(Said(a, b, lock, 4))
  }

  lemma PairSays(a: nat, b: nat, lock: string)
    requires IsPair(a, b) && (a <= 1 ==> lock == REPLY)
    ensures PairTape(a, b, lock).says == [HELLO, lock, REPLY, REPLY, SANITY, REFUSED, REPLY]
  {
    var says := Said(a, b, lock, 4).says;
    SaidSays(a, b, lock, 4);
    assert says == [Text(0, lock), Text(1, lock), Text(2, lock), Text(3, lock)];
  }

  lemma PairPlays(a: nat, b: nat, lock: string)
    requires IsPair(a, b) && (lock == REPLY || lock == REFUSED) && (a <= 1 ==> lock == REPLY)
    ensures Playable(PairTape(a, b, lock))
    ensures var items := PairTape(a, b, lock).items;
      && RpcOk(items[2].text) && RpcOk(items[3].text) && RpcOk(items[5].text)
      && forall j: nat :: j < MESSAGES && items[j].CutOff? ==> j == a || j == b
  {
    var t := SaidFits(a, b, lock);
    RefusingFits(t);
    var t' := SaidItems(a, b, lock, 4);
    RefusingItems(t, a, b);
    PairSays(a, b, lock);
  }
}
