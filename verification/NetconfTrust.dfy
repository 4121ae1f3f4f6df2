/** When a reported success of the deploy can be trusted, exactly. */
module NetconfTrust {
  import opened NetconfChannel
  import opened NetconfDevice
  import opened NetconfVerdict
  import opened NetconfForgery

  // ------------------------------------------------------------------ sessions that report success

  /** What the device says if it accepts the RPCs as listed. */
  function Replies(accepted: seq<bool>): seq<string>
    requires |accepted| == RPCS
  {
    [HELLO, Answer(accepted[0]), Answer(accepted[1]), Answer(accepted[2]), SANITY, Answer(accepted[4]),
     Answer(accepted[5])]
  }

  function Answer(accepted: bool): string {
    if accepted then REPLY else REFUSED
  }

  lemma RepliesSpeak(t: Tape, accepted: seq<bool>)
    requires |accepted| == RPCS && t.says == Replies(accepted)
    ensures WellSpoken(SessionOf(t, accepted))
  {
    Messages();
    forall i | 0 <= i < RPCS && i != 3 && !accepted[i]
      ensures !HasMarker(t.says[i + 1])
    {
      assert t.says[i + 1] == REFUSED;
    }
  }

  /** The first seven reads show success, and only those in `cut` are cut off. */
  ghost predicate Convincing(t: Tape, cut: set<nat>) {
    && Playable(t)
    && RpcOk(t.items[2].text) && RpcOk(t.items[3].text) && RpcOk(t.items[5].text)
    && forall j: nat :: j < MESSAGES && t.items[j].CutOff? ==> j in cut
  }

  lemma ConvincingSucceeds(t: Tape, accepted: seq<bool>, cut: set<nat>)
    requires Convincing(t, cut)
    ensures Success(SessionOf(t, accepted)) && NetconfVerdict.CutOff(SessionOf(t, accepted)) <= cut
  {
    var s := SessionOf(t, accepted);
    forall j: nat | j < MESSAGES
      ensures TheReads(s)[j] == AsRead(t.items[j]) && !Raises(TheReads(s)[j])
    {
      TapeRead(t, accepted, j);
      assert Readable(t.items[j]);
    }
  }

  /** The session in which the device accepts the RPCs as listed and the reads are as laid out. */
  lemma Plays(d: Target, t: Tape, accepted: seq<bool>, cut: set<nat>) returns (s: Session)
    requires Convincing(t, cut) && |accepted| == RPCS && t.says == Replies(accepted)
    requires accepted[0] ==> d.candidate == d.running
    ensures Consistent(d, s) && Success(s) && NetconfVerdict.CutOff(s) <= cut
    ensures s.h == Answered(accepted)
  {
    s := SessionOf(t, accepted);
    RepliesSpeak(t, accepted);
    TapeConsistent(d, t, accepted);
    ConvincingSucceeds(t, accepted, cut);
  }

  /** Reads `a` and `b` are cut off, and the final commit is refused. */
  lemma PairForges(d: Target, a: nat, b: nat, granted: bool) returns (s: Session)
    requires IsPair(a, b) && (granted ==> d.candidate == d.running) && (a <= 1 ==> granted)
    ensures Consistent(d, s) && Success(s) && NetconfVerdict.CutOff(s) <= {a, b}
    ensures s.h == Answered([granted, true, true, true, false, true])
  {
    var lock, accepted := if granted then REPLY else REFUSED, [granted, true, true, true, false, true];
    var t := PairTape(a, b, lock);
    PairPlays(a, b, lock);
    PairSays(a, b, lock);
    s := Plays(d, t, accepted, {a, b});
  }

  /** The first three reads of a session. */
  ghost predicate Begins(t: Tape, cut: set<nat>) {
    && |t.items| == 3 && RpcOk(t.items[2].text)
    && forall j: nat :: j < 3 ==> Readable(t.items[j]) && (t.items[j].CutOff? ==> j in cut)
  }

  /** The rest of a session in which the two commits are accepted. */
  function Finishing(t: Tape): Tape {
    Say(Say(Say(Say(t, REPLY), SANITY), REPLY), REPLY)
  }

  lemma FinishingFits(t: Tape) returns (t': Tape)
    requires Fits(t)
    ensures t' == Finishing(t) && Fits(t')
  {
    SayFits(t, REPLY);
    SayFits(Say(t, REPLY), SANITY);
    SayFits(Say(Say(t, REPLY), SANITY), REPLY);
    SayFits(Say(Say(Say(t, REPLY), SANITY), REPLY), REPLY);
    t' := Finishing(t);
  }

  lemma FinishingReads(t: Tape, cut: set<nat>) returns (items: seq<Item>)
    requires Begins(t, cut)
    ensures items == Finishing(t).items && |items| == MESSAGES
    ensures forall it :: it in items ==> Readable(it)
    ensures RpcOk(items[2].text) && RpcOk(items[3].text) && RpcOk(items[5].text)
    ensures forall j: nat :: j < MESSAGES && items[j].CutOff? ==> j in cut
  {
    LateTexts();
    Pieces();
    items := t.items + [Whole(REPLY, ""), Whole(SANITY, ""), Whole(REPLY, ""), Whole(REPLY, "")];
    assert items == Finishing(t).items;
  }

  lemma FinishingConvinces(t: Tape, cut: set<nat>) returns (t': Tape)
    requires Fits(t) && |t.says| == 3 && Begins(t, cut)
    ensures t' == Finishing(t) && Convincing(t', cut)
    ensures t'.says == t.says + [REPLY, SANITY, REPLY, REPLY]
  {
    t' := FinishingFits(t);
    var items := FinishingReads(t, cut);
  }

  /** The hello or the lock's reply is cut off, and the refusal of the load is lost behind the marker
      that ends the lock's reply. */
  function LosingTape(a: nat): Tape {
    if a == 0 then SayLosing(SayCut(Tape([], []), HELLO_FRONT, HELLO_BACK), REPLY, REFUSED)
    else SayCutLosing(Say(Tape([], []), HELLO), FRONT, BACK, REFUSED)
  }

  lemma LosingFits(a: nat) returns (t: Tape)
    requires a <= 1
    ensures t == LosingTape(a) && Fits(t)
  {
    t := EmptyFits();
    if a == 0 {
      SayCutFits(t, HELLO_FRONT, HELLO_BACK);
      SayLosingFits(SayCut(t, HELLO_FRONT, HELLO_BACK), REPLY, REFUSED);
    } else {
      SayFits(t, HELLO);
      SayCutLosingFits(Say(t, HELLO), FRONT, BACK, REFUSED);
    }
    t := LosingTape(a);
  }

  lemma LosingBegins(a: nat)
    requires a <= 1
    ensures Begins(LosingTape(a), {a}) && LosingTape(a).says == [HELLO, REPLY, REFUSED]
  {
    Pieces();
    TextsReadable(0, REPLY);
    TextsReadable(1, REPLY);
    var lost := REFUSED + EOM;
    if a == 0 {
      assert LosingTape(a).items == [CutOff(HELLO_FRONT), Whole(HELLO_BACK, ""), Whole(REPLY, lost)];
    } else {
      assert LosingTape(a).items == [Whole(HELLO, ""), CutOff(FRONT), Whole(BACK, lost)];
    }
  }

  lemma LosingForges(d: Target, a: nat) returns (s: Session)
    requires a <= 1 && d.candidate == d.running
    ensures Consistent(d, s) && Success(s) && NetconfVerdict.CutOff(s) <= {a}
    ensures s.h == Answered([true, false, true, true, true, true])
  {
    var accepted := [true, false, true, true, true, true];
    var t := LosingFits(a);
    LosingBegins(a);
    t := FinishingConvinces(t, {a});
    s := Plays(d, t, accepted, {a});
  }

  function PlainTape(lock: string): Tape {
    Say(Say(Say(Tape([], []), HELLO), lock), REPLY)
  }

  lemma PlainFits(lock: string) returns (t: Tape)
    ensures t == PlainTape(lock) && Fits(t)
  {
    t := EmptyFits();
    SayFits(t, HELLO);
    SayFits(Say(t, HELLO), lock);
    SayFits(Say(Say(t, HELLO), lock), REPLY);
    t := PlainTape(lock);
  }

  lemma PlainBegins(lock: string)
    requires lock == REPLY || lock == REFUSED
    ensures Begins(PlainTape(lock), {}) && PlainTape(lock).says == [HELLO, lock, REPLY]
  {
    Pieces();
    TextsReadable(0, lock);
    TextsReadable(1, lock);
    LateTexts();
    assert PlainTape(lock).items == [Whole(HELLO, ""), Whole(lock, ""), Whole(REPLY, "")];
  }

  /** Every read is complete and everything is accepted, except the lock on a dirty candidate. */
  lemma PlainSucceeds(d: Target) returns (s: Session)
    ensures Consistent(d, s) && Success(s) && NetconfVerdict.CutOff(s) == {}
    ensures s.h == Answered([d.candidate == d.running, true, true, true, true, true])
  {
    var granted := d.candidate == d.running;
    var lock, accepted := if granted then REPLY else REFUSED, [granted, true, true, true, true, true];
    var t := PlainFits(lock);
    PlainBegins(lock);
    t := FinishingConvinces(t, {});
    s := Plays(d, t, accepted, {});
  }

  // ------------------------------------------------------------------ the condition

  /** If only the reads in `cut` may be cut off by a timeout, success can be trusted when
      - the load makes the new configuration of the candidate, dirty or not,
      - with a clean candidate: neither the hello nor the lock's reply may be cut off, or a rejected
        load leaves the new configuration anyway,
      - no two reads from the hello to the sanity reply may be cut off, other than the hello and the
        lock's reply, or the deploy changes nothing (with a dirty candidate, whose lock is refused,
        from the load's reply on). */
  predicate Trusted(d: Target, job: Job, cut: set<nat>) {
    var clean, wanted := d.candidate == d.running, job.apply(d.running);
    && job.apply(d.candidate) == wanted
    && (clean && (0 in cut || 1 in cut) ==> job.leave(d.candidate) == wanted)
    && (TwoCut(cut, if clean then 0 else 2) ==> d.running == wanted)
  }

  /** Every session in which only reads of `cut` are cut off and success is reported ends with the new
      configuration. */
  ghost predicate SuccessMeansNew(d: Target, job: Job, cut: set<nat>) {
    forall s :: Consistent(d, s) && NetconfVerdict.CutOff(s) <= cut && Success(s) ==>
      Final(d, job, s.h) == job.apply(d.running)
  }

  lemma TrustedIsNew(d: Target, job: Job, cut: set<nat>, s: Session)
    requires d.revertTo.None? && Trusted(d, job, cut)
    requires Consistent(d, s) && NetconfVerdict.CutOff(s) <= cut && Success(s)
    ensures Final(d, job, s.h) == job.apply(d.running)
  {
    FinalForm(d, job, s.h);
    if !TwoCut(cut, if d.candidate == d.running then 0 else 2) {
      CommitAccepted(d, s);
    }
    if d.candidate != d.running {
      LockRefused(d, s);
      LoadAcceptedIfUnlocked(d, s);
    } else if 0 !in cut && 1 !in cut {
      LoadAccepted(d, s);
    }
  }

  lemma UntrustedForged(d: Target, job: Job, cut: set<nat>) returns (s: Session)
    requires d.revertTo.None? && !Trusted(d, job, cut)
    ensures Consistent(d, s) && NetconfVerdict.CutOff(s) <= cut && Success(s)
    ensures Final(d, job, s.h) != job.apply(d.running)
  {
    var clean := d.candidate == d.running;
    if job.apply(d.candidate) != job.apply(d.running) {
      s := PlainSucceeds(d);
    } else if clean && (0 in cut || 1 in cut) && job.leave(d.candidate) != job.apply(d.running) {
      s := LosingForges(d, if 0 in cut then 0 else 1);
    } else {
      var a: nat, b: nat :| a in cut && b in cut && (if clean then 0 else 2) <= a < b <= 4 && b >= 2;
      s := PairForges(d, a, b, clean);
    }
    FinalForm(d, job, s.h);
  }

  /** The verdict is right exactly under `Trusted`. */
  lemma SuccessIsGenuineExactly(d: Target, job: Job, cut: set<nat>)
    requires d.revertTo.None?
    ensures SuccessMeansNew(d, job, cut) <==> Trusted(d, job, cut)
  {
    if Trusted(d, job, cut) {
      forall s | Consistent(d, s) && NetconfVerdict.CutOff(s) <= cut && Success(s)
        ensures Final(d, job, s.h) == job.apply(d.running)
      {
        TrustedIsNew(d, job, cut, s);
      }
    } else {
      var s := UntrustedForged(d, job, cut);
    }
  }
}
