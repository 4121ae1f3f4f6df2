/** What a reported success of the deploy shows about the device when some reads are cut off. */
module NetconfVerdict {
  import opened NetconfChannel
  import opened NetconfWire
  import opened NetconfDevice

  /** `says` is the server's hello and the reply to each RPC, sent or not; `script` is what the
      client's receive calls do, and `fails` says which of its sends raise. */
  datatype Session = Session(h: Handling, says: seq<string>, script: seq<Recv>, fails: seq<bool>)

  const MESSAGES := 7

  /** Well-formed messages; a refused RPC's reply has no success marker (an ok is sent only if no error
      occurred, RFC 6241, section 4.3), nor has the hello or the sanity check's reply. */
  ghost predicate WellSpoken(s: Session)
    requires WholeDeploy(s.h)
  {
    && |s.says| == MESSAGES
    && (forall m :: m in s.says ==> Framed(m))
    && !HasMarker(s.says[0]) && !HasMarker(s.says[4])
    && (forall i :: 0 <= i < RPCS && i != 3 && !s.h.accepted[i] ==> !HasMarker(s.says[i + 1]))
  }

  function TheReads(s: Session): (rs: seq<Read>)
    ensures |rs| == MESSAGES
  {
    Reads(s.script, MESSAGES)
  }

  /** What the first `n` reads took from the channel. */
  function Taken(rs: seq<Read>, n: nat): string
    requires n <= |rs|
  {
    if n == 0 then "" else Taken(rs, n - 1) + rs[n - 1].got
  }

  /** How many messages the device can have sent when read `j` returns. */
  function Available(s: Session, j: nat): nat {
    1 + if j < s.h.delivered then j else s.h.delivered
  }

  /** The reads take, in order, what the device has sent by then. */
  ghost predicate Consistent(d: Target, s: Session) {
    && Lawful(d, s.h) && WellSpoken(s) && |s.fails| == RPCS
    && forall j :: 0 <= j < MESSAGES && Available(s, j) <= MESSAGES ==>
         Taken(TheReads(s), j + 1) <= Wire(s.says[..Available(s, j)])
  }

  predicate Success(s: Session)
    requires |s.fails| == RPCS
  {
    Succeeds(TheReads(s), s.fails)
  }

  /** The reads that a timeout cut off. */
  function CutOff(s: Session): set<nat> {
    set j: nat | j < MESSAGES && TheReads(s)[j].ending == TimedOut
  }

  // ------------------------------------------------------------------ reads and positions

  function Position(s: Session, j: nat): nat
    requires j <= MESSAGES
  {
    |Taken(TheReads(s), j)|
  }

  lemma TakenFromWire(d: Target, s: Session, j: nat)
    requires Consistent(d, s) && j < MESSAGES
    ensures Available(s, j) <= MESSAGES
    ensures Position(s, j + 1) <= Start(s.says, Available(s, j)) <= |Wire(s.says)|
    ensures Position(s, j + 1) == Position(s, j) + |TheReads(s)[j].got|
    ensures Wire(s.says)[Position(s, j)..Position(s, j + 1)] == TheReads(s)[j].got
  {
    WirePrefix(s.says, Available(s, j));
    var t, w := Taken(TheReads(s), j + 1), Wire(s.says);
    assert t <= w;
    assert t[Position(s, j)..] == TheReads(s)[j].got;
    assert w[Position(s, j)..Position(s, j + 1)] == t[Position(s, j)..];
  }

  lemma {:induction false} ReadIsFound(script: seq<Recv>, n: nat, j: nat)
    requires j < n
    ensures var r := Reads(script, n)[j];
      && (r.ending == Complete <==> Find(r.got, 0).Some?)
      && r.text == (if Find(r.got, 0).Some? then r.got[..Find(r.got, 0).value] else r.got)
    decreases n
  {
    ReadMeans(script, "");
    if j > 0 { ReadIsFound(ReadFrom(script, "").1, n - 1, j - 1); }
  }

  lemma TextIsFront(s: Session, j: nat)
    requires j < MESSAGES
    ensures TheReads(s)[j].text <= TheReads(s)[j].got
    ensures TheReads(s)[j].ending == Complete ==> EomAt(TheReads(s)[j].got, |TheReads(s)[j].text|)
  {
    ReadIsFound(s.script, MESSAGES, j);
  }

  lemma EomShift(w: string, c: nat, end: nat, got: string, t: nat)
    requires c <= end <= |w| && w[c..end] == got && EomAt(got, t)
    ensures EomAt(w, c + t) && c + t + |EOM| <= end
  {
    assert forall x :: 0 <= x < |got| ==> got[x] == w[c..end][x];
    assert forall x :: 0 <= x < |got| ==> w[c..end][x] == w[c + x];
    EomIsChars(got, t);
    EomIsChars(w, c + t);
  }

  /** A marker behind the first `k` messages ends at least one more. */
  lemma EomPasses(ms: seq<string>, e: nat, k: nat)
    requires (forall m :: m in ms ==> Framed(m)) && EomAt(Wire(ms), e) && k < |ms| && Start(ms, k) <= e
    ensures Start(ms, k + 1) <= e + |EOM|
  {
    var i := EomOnlyAtEnds(ms, e);
    MessageAt(ms, i);
    if i < k {
      StartsInOrder(ms, i + 1, k);
    } else {
      StartsInOrder(ms, k + 1, i + 1);
    }
  }

  /** A complete read that has something behind the first `k` messages passes another one. */
  lemma CompletePasses(d: Target, s: Session, j: nat, k: nat, g: nat)
    requires Consistent(d, s) && j < MESSAGES && k < MESSAGES
    requires TheReads(s)[j].ending == Complete
    requires Position(s, j) <= g <= Position(s, j) + |TheReads(s)[j].text| && Start(s.says, k) <= g
    ensures Start(s.says, k + 1) <= Position(s, j + 1)
  {
    TakenFromWire(d, s, j);
    TextIsFront(s, j);
    var r := TheReads(s)[j];
    EomShift(Wire(s.says), Position(s, j), Position(s, j + 1), r.got, |r.text|);
    EomPasses(s.says, Position(s, j) + |r.text|, k);
  }

  /** Every read keeps what earlier ones passed. */
  lemma StaysPassed(d: Target, s: Session, j: nat, k: nat)
    requires Consistent(d, s) && j < MESSAGES && k <= MESSAGES && Start(s.says, k) <= Position(s, j)
    ensures Start(s.says, k) <= Position(s, j + 1)
  {
    TakenFromWire(d, s, j);
  }

  lemma OccursShift(w: string, c: nat, end: nat, got: string, text: string, pattern: string, q: nat)
    requires c <= end <= |w| && w[c..end] == got && text <= got && OccursAt(text, pattern, q)
    ensures OccursAt(w, pattern, c + q) && q + |pattern| <= |text|
  {
    assert forall x :: 0 <= x < |text| ==> text[x] == w[c..end][x];
    assert forall x :: 0 <= x < |text| ==> w[c..end][x] == w[c + x];
  }

  lemma MarkerBetween(ms: seq<string>, m: nat, g: nat, k: nat, n: nat) returns (i: nat)
    requires m < |MARKERS| && OccursAt(Wire(ms), MARKERS[m], g) && k <= n <= |ms|
    requires Start(ms, k) <= g < Start(ms, n)
    ensures k <= i < n && HasMarker(ms[i]) && Start(ms, i) <= g
  {
    i := MarkerInMessage(ms, m, g);
    MessageAt(ms, i);
    if i < k { StartsInOrder(ms, i + 1, k); }
    if i >= n { StartsInOrder(ms, n, i); }
  }

  /** A success marker in a read comes from a message not yet passed and already sent. */
  lemma MarkerSource(d: Target, s: Session, j: nat, k: nat) returns (i: nat, g: nat)
    requires Consistent(d, s) && j < MESSAGES && k < MESSAGES && Start(s.says, k) <= Position(s, j)
    requires HasMarker(TheReads(s)[j].text)
    ensures k <= i < Available(s, j) && i < MESSAGES && HasMarker(s.says[i])
    ensures Position(s, j) <= g < Position(s, j) + |TheReads(s)[j].text| && Start(s.says, i) <= g
  {
    TakenFromWire(d, s, j);
    TextIsFront(s, j);
    var r := TheReads(s)[j];
    var m :| 0 <= m < |MARKERS| && Contains(r.text, MARKERS[m]);
    var q :| 0 <= q <= |r.text| && OccursAt(r.text, MARKERS[m], q);
    g := Position(s, j) + q;
    OccursShift(Wire(s.says), Position(s, j), Position(s, j + 1), r.got, r.text, MARKERS[m], q);
    assert |MARKERS[m]| > 0;
    if k > Available(s, j) { StartsInOrder(s.says, Available(s, j), k); }
    i := MarkerBetween(s.says, m, g, k, Available(s, j));
  }

  // ------------------------------------------------------------------ what success shows

  /** Two of the first five reads are cut off, the later of them behind the hello and the lock's
      reply; `from` says where to start counting. */
  predicate TwoCut(cut: set<nat>, from: nat) {
    exists a: nat, b: nat :: a in cut && b in cut && from <= a < b <= 4 && b >= 2
  }

  /** End of file in any of the first five reads rules success out. */
  lemma EofNeverSucceeds(s: Session, j: nat)
    requires |s.fails| == RPCS && j <= 4 && TheReads(s)[j].ending == Ended
    ensures !Success(s)
  {
    AfterEof(s.script, MESSAGES, j, 5);
    EmptyHasNoMarker();
  }

  lemma EmptyHasNoMarker()
    ensures !HasMarker("")
  {
    forall m | 0 <= m < |MARKERS|
      ensures !Contains("", MARKERS[m])
    {
      assert |MARKERS[m]| > 0;
    }
  }

  /** In a success the first five reads are complete or cut off. */
  lemma FirstFive(s: Session, j: nat)
    requires |s.fails| == RPCS && Success(s) && j <= 4 && j !in CutOff(s)
    ensures TheReads(s)[j].ending == Complete
  {
    if TheReads(s)[j].ending == Ended { EofNeverSucceeds(s, j); }
  }

  /** A read that is not cut off passes a message. */
  lemma NextPassed(d: Target, s: Session, j: nat, k: nat)
    requires Consistent(d, s) && Success(s) && j <= 4 && j !in CutOff(s)
    requires k < MESSAGES && Start(s.says, k) <= Position(s, j)
    ensures Start(s.says, k + 1) <= Position(s, j + 1)
  {
    FirstFive(s, j);
    CompletePasses(d, s, j, k, Position(s, j));
  }

  /** The reply read for the load shows a marker from message `i` on; what that passes. */
  lemma LoadReplyPasses(d: Target, s: Session) returns (i: nat)
    requires Consistent(d, s) && Success(s)
    ensures 1 <= i <= 2 && HasMarker(s.says[i]) && s.h.accepted[i - 1]
    ensures Start(s.says, i) <= Position(s, 3)
    ensures 2 !in CutOff(s) ==> Start(s.says, i + 1) <= Position(s, 3)
  {
    var g;
    i, g := MarkerSource(d, s, 2, 0);
    TakenFromWire(d, s, 2);
    TextIsFront(s, 2);
    if 2 !in CutOff(s) {
      FirstFive(s, 2);
      CompletePasses(d, s, 2, i, g);
    }
  }

  /** The load was accepted, unless the hello or the lock's reply was cut off. */
  lemma LoadAccepted(d: Target, s: Session)
    requires Consistent(d, s) && Success(s) && 0 !in CutOff(s) && 1 !in CutOff(s)
    ensures s.h.accepted[1]
  {
    NextPassed(d, s, 0, 0);
    NextPassed(d, s, 1, 1);
    var i, g := MarkerSource(d, s, 2, 2);
  }

  /** With a refused lock the load was accepted in any case. */
  lemma LoadAcceptedIfUnlocked(d: Target, s: Session)
    requires Consistent(d, s) && Success(s) && !s.h.accepted[0]
    ensures s.h.accepted[1]
  {
    var i := LoadReplyPasses(d, s);
  }

  /** What the fifth read has passed when the final commit's reply is read. */
  lemma CommitReply(d: Target, s: Session)
    requires Consistent(d, s) && Success(s) && Start(s.says, 4) <= Position(s, 5)
    ensures s.h.delivered > 4 && s.h.accepted[4]
  {
    var i, g := MarkerSource(d, s, 5, 4);
  }

  lemma NothingPassed(d: Target, s: Session)
    requires Consistent(d, s)
    ensures Start(s.says, 0) <= Position(s, 0)
  {
    assert s.says[..0] == [];
  }

  /** With at most one cut among the first five reads, four messages are passed. */
  lemma OneCutPasses(d: Target, s: Session, b: nat)
    requires Consistent(d, s) && Success(s) && b <= 4
    requires forall a :: a in CutOff(s) && a <= 4 ==> a == b
    ensures Start(s.says, 4) <= Position(s, 5)
  {
    var k := 0;
    NothingPassed(d, s);
    for j := 0 to 5
      invariant k == (if j <= b then j else j - 1) && Start(s.says, k) <= Position(s, j)
    {
      if j == b {
        StaysPassed(d, s, j, k);
      } else {
        NextPassed(d, s, j, k);
        k := k + 1;
      }
    }
  }

  /** With the cuts among the hello and the lock's reply, the load's reply read makes up for one. */
  lemma EarlyCutsPass(d: Target, s: Session)
    requires Consistent(d, s) && Success(s) && forall a :: a in CutOff(s) ==> a <= 1 || a >= 5
    ensures Start(s.says, 4) <= Position(s, 5)
  {
    var i := LoadReplyPasses(d, s);
    StartsInOrder(s.says, 2, i + 1);
    NextPassed(d, s, 3, 2);
    NextPassed(d, s, 4, 3);
  }

  /** With a refused lock only the cuts from the load's reply on count. */
  lemma UnlockedPasses(d: Target, s: Session)
    requires Consistent(d, s) && Success(s) && !s.h.accepted[0] && !TwoCut(CutOff(s), 2)
    ensures Start(s.says, 4) <= Position(s, 5)
  {
    var i := LoadReplyPasses(d, s);
    if 2 in CutOff(s) {
      NextPassed(d, s, 3, 2);
      NextPassed(d, s, 4, 3);
    } else if 3 in CutOff(s) {
      StaysPassed(d, s, 3, 3);
      NextPassed(d, s, 4, 3);
    } else {
      NextPassed(d, s, 3, 3);
      StaysPassed(d, s, 4, 4);
    }
  }

  /** The final commit was accepted, unless two reads were cut off. */
  lemma CommitAccepted(d: Target, s: Session)
    requires Consistent(d, s) && Success(s)
    requires !TwoCut(CutOff(s), if d.candidate == d.running then 0 else 2)
    ensures s.h.delivered > 4 && s.h.accepted[4]
  {
    if d.candidate != d.running {
      LockRefused(d, s);
      UnlockedPasses(d, s);
    } else if b: nat :| b in CutOff(s) && 2 <= b <= 4 {
      OneCutPasses(d, s, b);
    } else {
      EarlyCutsPass(d, s);
    }
    CommitReply(d, s);
  }

  /** A device with a dirty candidate refuses the lock, or never got to see it. */
  lemma LockRefused(d: Target, s: Session)
    requires Consistent(d, s) && Success(s) && d.candidate != d.running
    ensures !s.h.accepted[0]
  {
    NothingPassed(d, s);
    var i, g := MarkerSource(d, s, 2, 0);
  }
}
