/** The NETCONF client's side of the channel: end-of-message framing (RFC 6242, section 4.3), reads
    that may be cut off, the request loop, and the textual verdict on the replies. */
module NetconfChannel {
  import opened Basics

  const EOM: string := "]]>]]>"

  predicate EomAt(s: string, i: int) {
    0 <= i && i + |EOM| <= |s| && s[i..i + |EOM|] == EOM
  }

  /** Index of the first end-of-message marker at or after `from`. */
  function Find(s: string, from: nat): (r: Option<nat>)
    ensures r.Some? ==> from <= r.value && EomAt(s, r.value) && forall j :: from <= j < r.value ==> !EomAt(s, j)
    ensures r.None? ==> forall j :: from <= j ==> !EomAt(s, j)
    decreases |s| - from
  {
    if from + |EOM| > |s| then None
    else if s[from..from + |EOM|] == EOM then Some(from)
    else Find(s, from + 1)
  }

  // ------------------------------------------------------------------ one read

  /** What a receive call does: yield bytes, of which none means end of file, or time out. */
  datatype Recv = Chunk(bytes: string) | TimesOut

  /** How a read ended: at the marker, by a timeout, or at end of file. */
  datatype Ending = Complete | TimedOut | Ended

  /** A read returns `text`; `got` is all it took from the channel, of which what lies behind the
      marker is lost. */
  datatype Read = Read(ending: Ending, text: string, got: string)

  /** A read that times out with nothing at all raises. */
  predicate Raises(r: Read) {
    r.ending == TimedOut && r.text == ""
  }

  predicate AtEof(script: seq<Recv>) {
    script == [] || script[0] == Chunk("")
  }

  /** A read that has `buf` already, and what it leaves of the channel. */
  function ReadFrom(script: seq<Recv>, buf: string): (r: (Read, seq<Recv>))
    decreases |script|
  {
    match Find(buf, 0)
    case Some(i) => (Read(Complete, buf[..i], buf), script)
    case None =>
      if AtEof(script) then (Read(Ended, buf, buf), script)
      else if script[0].TimesOut? then (Read(TimedOut, buf, buf), script[1..])
      else ReadFrom(script[1..], buf + script[0].bytes)
  }

  class Channel {
    /** What the coming receive calls do. */
    var script: seq<Recv>

    constructor (s: seq<Recv>)
      ensures script == s
    {
      script := s;
    }

    method Receive() returns (x: Recv)
      modifies this
      ensures if AtEof(old(script)) then x == Chunk("") && script == old(script)
              else x == old(script)[0] && script == old(script)[1..]
    {
      if AtEof(script) { return Chunk(""); }
      x := script[0];
      script := script[1..];
    }

    /** Accumulate chunks until the marker shows up, the channel ends or a receive call times out. */
    method ReadUntilEom() returns (r: Read)
      modifies this
      ensures (r, script) == ReadFrom(old(script), "")
    {
      var buf, ending := "", Ended;
      while Find(buf, 0).None?
        invariant ReadFrom(script, buf) == ReadFrom(old(script), "")
        decreases |script|
      {
        if AtEof(script) { break; }
        var x := Receive();
        if x.TimesOut? {
          return Read(TimedOut, buf, buf);
        }
        buf := buf + x.bytes;
      }
      match Find(buf, 0) {
        case Some(i) => r := Read(Complete, buf[..i], buf);
        case None => r := Read(Ended, buf, buf);
      }
    }
  }

  function Bytes(script: seq<Recv>): string {
    if script == [] then ""
    else (if script[0].Chunk? then script[0].bytes else "") + Bytes(script[1..])
  }

  lemma ReadStops(script: seq<Recv>, buf: string)
    requires Find(buf, 0).Some? || AtEof(script) || script[0].TimesOut?
    ensures var (r, rest) := ReadFrom(script, buf);
      && r.got == buf && Bytes(rest) == Bytes(script)
      && (r.ending == Complete <==> Find(buf, 0).Some?)
      && r.text == (if Find(buf, 0).Some? then buf[..Find(buf, 0).value] else buf)
      && (r.ending == Ended ==> AtEof(rest))
  {
  }

  /** What a read returns, whatever the chunk boundaries: the text before the first marker in what it
      took, or all it took if there is none; and it takes bytes from the front of the channel. */
  lemma {:induction false} ReadMeans(script: seq<Recv>, buf: string)
    ensures var (r, rest) := ReadFrom(script, buf);
      && buf + Bytes(script) == r.got + Bytes(rest)
      && (r.ending == Complete <==> Find(r.got, 0).Some?)
      && r.text == (if Find(r.got, 0).Some? then r.got[..Find(r.got, 0).value] else r.got)
      && (r.ending == Ended ==> AtEof(rest))
    decreases |script|
  {
    if Find(buf, 0).None? && !AtEof(script) && script[0].Chunk? {
      var more := buf + script[0].bytes;
      ReadMeans(script[1..], more);
      assert buf + Bytes(script) == more + Bytes(script[1..]);
      assert ReadFrom(script, buf) == ReadFrom(script[1..], more);
    } else {
      ReadStops(script, buf);
    }
  }

  /** The marker stands at `i`. */
  predicate MarkerAt(s: string, i: int) {
    0 <= i <= |s| && "]]>]]>" <= s[i..]
  }

  lemma EomIsMarker(s: string, i: int)
    ensures EomAt(s, i) <==> MarkerAt(s, i)
  {
    if MarkerAt(s, i) { assert s[i..][..6] == s[i..i + 6]; }
    if EomAt(s, i) { assert s[i..i + 6] == s[i..][..6]; }
  }

  /** A read in terms of what it took from the channel: it ends at the first marker, wherever the chunks
      do; if there is none it returns everything. */
  lemma ReadReturns(script: seq<Recv>)
    ensures var (r, rest) := ReadFrom(script, "");
      && Bytes(script) == r.got + Bytes(rest)
      && (r.ending == Complete ==> MarkerAt(r.got, |r.text|) && r.text <= r.got)
      && (r.ending != Complete ==> r.text == r.got)
      && (forall i :: MarkerAt(r.got, i) ==> r.ending == Complete && |r.text| <= i)
      && (r.ending == Ended ==> AtEof(rest))
  {
    var (r, rest) := ReadFrom(script, "");
    ReadMeans(script, "");
    forall i
      ensures EomAt(r.got, i) <==> MarkerAt(r.got, i)
    {
      EomIsMarker(r.got, i);
    }
  }

  // ------------------------------------------------------------------ the session's reads

  /** The first `n` reads of a session. */
  function Reads(script: seq<Recv>, n: nat): (rs: seq<Read>)
    ensures |rs| == n
    decreases n
  {
    if n == 0 then []
    else
      var (r, rest) := ReadFrom(script, "");
      [r] + Reads(rest, n - 1)
  }

  /** Once a read has met end of file every later one returns nothing. */
  lemma {:induction false} EofStays(script: seq<Recv>, n: nat, j: nat)
    requires j < n && AtEof(script)
    ensures Reads(script, n)[j] == Read(Ended, "", "")
  {
    assert Find("", 0).None?;
    if j > 0 { EofStays(script, n - 1, j - 1); }
  }

  lemma {:induction false} AfterEof(script: seq<Recv>, n: nat, i: nat, j: nat)
    requires i < j < n && Reads(script, n)[i].ending == Ended
    ensures Reads(script, n)[j] == Read(Ended, "", "")
    decreases n
  {
    var (r, rest) := ReadFrom(script, "");
    ReadMeans(script, "");
    if i > 0 {
      AfterEof(rest, n - 1, i - 1, j - 1);
    } else {
      EofStays(rest, n - 1, j - 1);
    }
  }

  // ------------------------------------------------------------------ the verdict on one reply

  /** ASCII letters are compared without regard to case. */
  function Lower(c: char): char {
    if 'A' <= c <= 'Z' then (c as int + 32) as char else c
  }

  predicate OccursAt(s: string, pattern: string, i: int) {
    0 <= i && i + |pattern| <= |s| && forall k :: 0 <= k < |pattern| ==> Lower(s[i + k]) == pattern[k]
  }

  predicate Contains(s: string, pattern: string) {
    exists i :: 0 <= i <= |s| && OccursAt(s, pattern, i)
  }

  const MARKERS: seq<string> := ["<ok", "commit complete", "commit-check-success", "commit-success"]

  /** One of the success markers occurs. */
  predicate HasMarker(s: string) {
    exists m :: 0 <= m < |MARKERS| && Contains(s, MARKERS[m])
  }

  predicate IsSpace(c: char) {
    c == ' ' || '\t' <= c <= '\r'
  }

  predicate Spaces(s: string, from: int, to: int) {
    0 <= from <= to <= |s| && forall k :: from <= k < to ==> IsSpace(s[k])
  }

  const SEVERITY := "<error-severity>"
  const ERROR := "error"
  const END_SEVERITY := "</error-severity>"

  /** An rpc-error of severity "error". */
  predicate HasFatalError(s: string) {
    exists i, a, b :: 0 <= i <= |s| && 0 <= a <= |s| && 0 <= b <= |s| &&
      OccursAt(s, SEVERITY, i) && Spaces(s, i + |SEVERITY|, a) &&
      OccursAt(s, ERROR, a) && Spaces(s, a + |ERROR|, b) && OccursAt(s, END_SEVERITY, b)
  }

  predicate RpcOk(s: string) {
    !HasFatalError(s) && HasMarker(s)
  }

  // ------------------------------------------------------------------ what the verdict on a reply means

  const CAPITALS := "ABCDEFGHIJKLMNOPQRSTUVWXYZ"
  const SMALL := "abcdefghijklmnopqrstuvwxyz"

  function Lowered(s: string): (l: string)
    ensures |l| == |s| && forall i :: 0 <= i < |s| ==> l[i] == Lower(s[i])
  {
    seq(|s|, i requires 0 <= i < |s| => Lower(s[i]))
  }

  /** Lower-casing replaces capitals by small letters and nothing else. */
  lemma LoweredMeans(s: string, i: nat, k: nat)
    requires i < |s| && k < 26
    ensures s[i] == CAPITALS[k] ==> Lowered(s)[i] == SMALL[k]
    ensures s[i] !in CAPITALS ==> Lowered(s)[i] == s[i]
  {
    assert forall j :: 0 <= j < 26 ==> CAPITALS[j] as int == 65 + j && SMALL[j] as int == 97 + j;
    assert 'A' <= s[i] <= 'Z' ==> CAPITALS[s[i] as int - 65] == s[i];
  }

  /** The phrase occurs in the text, in any case. */
  ghost predicate Says(s: string, phrase: string) {
    exists i :: 0 <= i <= |s| && phrase <= Lowered(s)[i..]
  }

  predicate Blank(s: string) {
    forall i :: 0 <= i < |s| ==> s[i] == ' ' || '\t' <= s[i] <= '\r'
  }

  /** An error-severity element from `i` on that holds, between `a` and `b`, the word and blanks
      around it. */
  predicate ElementAt(s: string, i: int, a: int, b: int, c: int, word: string) {
    && 0 <= i && i + 16 <= a <= b <= c <= |s|
    && "<error-severity>" <= Lowered(s)[i..] && Blank(s[i + 16..a])
    && Lowered(s)[a..b] == word && Blank(s[b..c]) && "</error-severity>" <= Lowered(s)[c..]
  }

  ghost predicate HasElement(s: string, word: string) {
    exists i, a, b, c :: ElementAt(s, i, a, b, c, word)
  }

  /** No error of severity "error", and a sign of success. */
  ghost predicate Good(s: string) {
    && !HasElement(s, "error")
    && (Says(s, "<ok") || Says(s, "commit complete") || Says(s, "commit-check-success") || Says(s, "commit-success"))
  }

  lemma OccursMeans(s: string, pattern: string, i: int)
    requires 0 <= i <= |s|
    ensures OccursAt(s, pattern, i) <==> pattern <= Lowered(s)[i..]
  {
    if OccursAt(s, pattern, i) {
      assert pattern == Lowered(s)[i..][..|pattern|];
    }
    if pattern <= Lowered(s)[i..] {
      forall k | 0 <= k < |pattern|
        ensures Lower(s[i + k]) == pattern[k]
      {
        assert Lowered(s)[i..][k] == Lowered(s)[i + k];
      }
    }
  }

  lemma ContainsMeans(s: string, pattern: string)
    ensures Contains(s, pattern) <==> Says(s, pattern)
  {
    forall i | 0 <= i <= |s|
      ensures OccursAt(s, pattern, i) <==> pattern <= Lowered(s)[i..]
    {
      OccursMeans(s, pattern, i);
    }
  }

  lemma SpacesMean(s: string, from: int, to: int)
    requires 0 <= from <= to <= |s|
    ensures Spaces(s, from, to) <==> Blank(s[from..to])
  {
    if Blank(s[from..to]) {
      forall k | from <= k < to
        ensures IsSpace(s[k])
      {
        assert s[from..to][k - from] == s[k];
      }
    }
  }

  lemma FatalAt(s: string, i: int, a: int, b: int)
    requires 0 <= i <= |s| && 0 <= a <= |s| && 0 <= b <= |s|
    ensures ElementAt(s, i, a, a + 5, b, "error") <==>
      && OccursAt(s, SEVERITY, i) && Spaces(s, i + |SEVERITY|, a)
      && OccursAt(s, ERROR, a) && Spaces(s, a + |ERROR|, b) && OccursAt(s, END_SEVERITY, b)
  {
    OccursMeans(s, SEVERITY, i);
    OccursMeans(s, ERROR, a);
    OccursMeans(s, END_SEVERITY, b);
    assert |SEVERITY| == 16 && |ERROR| == 5;
    if i + 16 <= a && a + 5 <= b {
      SpacesMean(s, i + 16, a);
      SpacesMean(s, a + 5, b);
      assert Lowered(s)[a..a + 5] == Lowered(s)[a..][..5];
    }
  }

  lemma FatalMeans(s: string)
    ensures HasFatalError(s) <==> HasElement(s, "error")
  {
    if i, a, b :| 0 <= i <= |s| && 0 <= a <= |s| && 0 <= b <= |s| &&
                  OccursAt(s, SEVERITY, i) && Spaces(s, i + |SEVERITY|, a) &&
                  OccursAt(s, ERROR, a) && Spaces(s, a + |ERROR|, b) && OccursAt(s, END_SEVERITY, b)
    {
      FatalAt(s, i, a, b);
    }
    if i, a, b, c :| ElementAt(s, i, a, b, c, "error") {
      assert |Lowered(s)[a..b]| == 5;
      FatalAt(s, i, a, c);
    }
  }

  /** The verdict on a reply, in terms of its text. */
  lemma RpcOkMeans(s: string)
    ensures RpcOk(s) <==> Good(s)
  {
    FatalMeans(s);
    forall m | 0 <= m < |MARKERS|
      ensures Contains(s, MARKERS[m]) <==> Says(s, MARKERS[m])
    {
      ContainsMeans(s, MARKERS[m]);
    }
    assert MARKERS[0] == "<ok" && MARKERS[1] == "commit complete";
    assert MARKERS[2] == "commit-check-success" && MARKERS[3] == "commit-success";
  }

  /** An error-severity element starts at `i`, and it holds "warning". */
  ghost predicate WarningAt(s: string, i: int) {
    exists a, b, c :: ElementAt(s, i, a, b, c, "warning")
  }

  lemma FirstLetter(s: string, i: int, a: int, b: int, c: int, word: string)
    requires ElementAt(s, i, a, b, c, word) && word != "" && 'a' <= word[0] <= 'z'
    ensures a < |s| && Lower(s[a]) == word[0] && !IsSpace(s[a])
    ensures forall k :: i + 16 <= k < a ==> IsSpace(s[k])
  {
    assert Lowered(s)[a..b][0] == Lower(s[a]);
    SpacesMean(s, i + 16, a);
  }

  lemma SameFirstLetter(s: string, i: int, a: int, b: int, c: int, word: string,
                        a': int, b': int, c': int, word': string)
    requires ElementAt(s, i, a, b, c, word) && word != "" && 'a' <= word[0] <= 'z'
    requires ElementAt(s, i, a', b', c', word') && word' != "" && 'a' <= word'[0] <= 'z'
    ensures word[0] == word'[0]
  {
    FirstLetter(s, i, a, b, c, word);
    FirstLetter(s, i, a', b', c', word');
  }

  lemma OnlyWarnings(s: string, i: int, a: int, b: int, c: int)
    requires WarningAt(s, i)
    ensures !ElementAt(s, i, a, b, c, "error")
  {
    if ElementAt(s, i, a, b, c, "error") {
      var a', b', c' :| ElementAt(s, i, a', b', c', "warning");
      SameFirstLetter(s, i, a, b, c, "error", a', b', c', "warning");
    }
  }

  /** Warnings are routine: a reply whose error severities all hold "warning", in any case and between
      any blanks, is good if it shows a sign of success. */
  lemma WarningsAreRoutine(s: string)
    requires forall i :: 0 <= i <= |s| && "<error-severity>" <= Lowered(s)[i..] ==> WarningAt(s, i)
    requires || Says(s, "<ok") || Says(s, "commit complete")
             || Says(s, "commit-check-success") || Says(s, "commit-success")
    ensures RpcOk(s)
  {
    RpcOkMeans(s);
    forall i, a, b, c
      ensures !ElementAt(s, i, a, b, c, "error")
    {
      if ElementAt(s, i, a, b, c, "error") { OnlyWarnings(s, i, a, b, c); }
    }
  }

  /** An error of severity "error" is never good, whatever else the reply shows. */
  lemma ErrorsAreFatal(s: string, i: int, a: int, b: int, c: int)
    requires ElementAt(s, i, a, b, c, "error")
    ensures !RpcOk(s)
  {
    RpcOkMeans(s);
  }

  // ------------------------------------------------------------------ the request loop

  const RPCS := 6

  /** `Crashed` is an exception: the server's hello timed out with nothing. */
  datatype Outcome = Crashed | Finished(replies: seq<string>, transportError: bool)

  /** The deploy's verdict: every reply in, and those to the load, the confirmed commit and the final
      commit each judged good. */
  predicate Verdict(o: Outcome) {
    o.Finished? && !o.transportError && |o.replies| >= RPCS
    && RpcOk(o.replies[1]) && RpcOk(o.replies[2]) && RpcOk(o.replies[4])
  }

  /** The reads, hello first, lead to a reported success; `fails` says which sends raise. */
  predicate Succeeds(rs: seq<Read>, fails: seq<bool>)
    requires |rs| == RPCS + 1 && |fails| == RPCS
  {
    && (forall j :: 0 <= j <= RPCS ==> !Raises(rs[j]))
    && (forall i :: 0 <= i < RPCS ==> !fails[i])
    && RpcOk(rs[2].text) && RpcOk(rs[3].text) && RpcOk(rs[5].text)
  }

  /** The replies are the texts of the reads after the hello, none of which raised. */
  ghost predicate Collected(rs: seq<Read>, fails: seq<bool>, replies: seq<string>)
    requires |rs| == RPCS + 1 && |fails| == RPCS
  {
    && |replies| <= RPCS
    && (forall k :: 0 <= k < |replies| ==> replies[k] == rs[k + 1].text && !Raises(rs[k + 1]) && !fails[k])
  }

  /** The texts of the replies read before the first send or read that raises, if any. */
  ghost predicate Transcript(rs: seq<Read>, fails: seq<bool>, replies: seq<string>, transportError: bool)
    requires |rs| == RPCS + 1 && |fails| == RPCS
  {
    && Collected(rs, fails, replies)
    && if transportError then |replies| < RPCS && (fails[|replies|] || Raises(rs[|replies| + 1])) else |replies| == RPCS
  }

  lemma VerdictOfTranscript(rs: seq<Read>, fails: seq<bool>, replies: seq<string>, transportError: bool)
    requires |rs| == RPCS + 1 && |fails| == RPCS && !Raises(rs[0])
    requires Transcript(rs, fails, replies, transportError)
    ensures Verdict(Finished(replies, transportError)) == Succeeds(rs, fails)
  {
    if !transportError {
      forall j | 0 <= j <= RPCS
        ensures !Raises(rs[j])
      {
        if j > 0 { assert replies[j - 1] == rs[j].text; }
      }
      forall i | 0 <= i < RPCS
        ensures !fails[i]
      {
        assert replies[i] == rs[i + 1].text;
      }
    }
  }

  /** The verdict on a deploy, in terms of the replies' texts. */
  lemma VerdictMeans(o: Outcome)
    ensures Verdict(o) <==> o.Finished? && !o.transportError && |o.replies| >= 6 &&
                            Good(o.replies[1]) && Good(o.replies[2]) && Good(o.replies[4])
  {
    if o.Finished? && |o.replies| >= 6 {
      RpcOkMeans(o.replies[1]);
      RpcOkMeans(o.replies[2]);
      RpcOkMeans(o.replies[4]);
    }
  }

  /** The channel after `j` reads. */
  function Left(script: seq<Recv>, j: nat): seq<Recv> {
    if j == 0 then script else ReadFrom(Left(script, j - 1), "").1
  }

  lemma {:induction false} LeftShift(script: seq<Recv>, j: nat)
    ensures Left(ReadFrom(script, "").1, j) == Left(script, j + 1)
  {
    if j > 0 { LeftShift(script, j - 1); }
  }

  lemma {:induction false} ReadAt(script: seq<Recv>, n: nat, j: nat)
    requires j < n
    ensures Reads(script, n)[j] == ReadFrom(Left(script, j), "").0
    decreases n
  {
    if j > 0 {
      ReadAt(ReadFrom(script, "").1, n - 1, j - 1);
      LeftShift(script, j - 1);
    }
  }

  /** The session and what the verdict on it will be. */
  method Execute(chan: Channel, fails: seq<bool>) returns (o: Outcome)
    requires |fails| == RPCS
    modifies chan
    ensures var rs := Reads(old(chan.script), RPCS + 1);
      && Verdict(o) == Succeeds(rs, fails)
      && (o.Crashed? <==> Raises(rs[0]))
      && (o.Finished? ==> Transcript(rs, fails, o.replies, o.transportError))
  {
    ghost var rs := Reads(chan.script, RPCS + 1);
    o := Converse(chan, fails);
    if o.Finished? { VerdictOfTranscript(rs, fails, o.replies, o.transportError); }
  }

  /** The hello, then a send and a read per RPC until one of them raises. */
  method Converse(chan: Channel, fails: seq<bool>) returns (o: Outcome)
    requires |fails| == RPCS
    modifies chan
    ensures var rs := Reads(old(chan.script), RPCS + 1);
      && (o.Crashed? <==> Raises(rs[0]))
      && (o.Finished? ==> Transcript(rs, fails, o.replies, o.transportError))
  {
    ghost var rs := Reads(chan.script, RPCS + 1);
    ghost var script := chan.script;
    ReadAt(script, RPCS + 1, 0);
    var hello := chan.ReadUntilEom();
    if Raises(hello) { return Crashed; }
    var replies := [];
    for i := 0 to RPCS
      invariant |replies| == i && chan.script == Left(script, i + 1)
      invariant Collected(rs, fails, replies)
    {
      if fails[i] { return Finished(replies, true); }
      ReadAt(script, RPCS + 1, i + 1);
      var reply := chan.ReadUntilEom();
      if Raises(reply) { return Finished(replies, true); }
      CollectedMore(rs, fails, replies);
      replies := replies + [reply.text];
    }
    o := Finished(replies, false);
  }

  lemma CollectedMore(rs: seq<Read>, fails: seq<bool>, replies: seq<string>)
    requires |rs| == RPCS + 1 && |fails| == RPCS && |replies| < RPCS && Collected(rs, fails, replies)
    requires !fails[|replies|] && !Raises(rs[|replies| + 1])
    ensures Collected(rs, fails, replies + [rs[|replies| + 1].text])
  {
  }

  /** The verdict on a finished session. */
  method Interpret(o: Outcome) returns (success: bool)
    ensures success == Verdict(o)
    ensures success <==> o.Finished? && !o.transportError && |o.replies| >= 6 &&
                         Good(o.replies[1]) && Good(o.replies[2]) && Good(o.replies[4])
  {
    VerdictMeans(o);
    if o.Crashed? || o.transportError { return false; }
    if |o.replies| < RPCS { return false; }
    return RpcOk(o.replies[1]) && RpcOk(o.replies[2]) && RpcOk(o.replies[4]);
  }

  /** A read gave out with nothing at all. */
  predicate Empty(r: Read) {
    r.ending == TimedOut && r.text == ""
  }

  lemma SucceedsMeans(rs: seq<Read>, fails: seq<bool>)
    requires |rs| == RPCS + 1 && |fails| == RPCS
    ensures Succeeds(rs, fails) <==>
      && (forall j :: 0 <= j <= 6 ==> !Empty(rs[j])) && (forall i :: 0 <= i < 6 ==> !fails[i])
      && Good(rs[2].text) && Good(rs[3].text) && Good(rs[5].text)
  {
    RpcOkMeans(rs[2].text);
    RpcOkMeans(rs[3].text);
    RpcOkMeans(rs[5].text);
    assert forall j :: 0 <= j <= 6 ==> (Raises(rs[j]) <==> Empty(rs[j]));
  }

  /** The deploy: it reports success exactly if all seven reads return something, no send fails, and the
      replies to the load and the two commits, as read, are good. */
  method Deploy(chan: Channel, fails: seq<bool>) returns (success: bool)
    requires |fails| == RPCS
    modifies chan
    ensures var rs := Reads(old(chan.script), RPCS + 1);
      && success == Succeeds(rs, fails)
      && (success <==>
          && (forall j :: 0 <= j <= 6 ==> !Empty(rs[j])) && (forall i :: 0 <= i < 6 ==> !fails[i])
          && Good(rs[2].text) && Good(rs[3].text) && Good(rs[5].text))
  {
    SucceedsMeans(Reads(chan.script, RPCS + 1), fails);
    var o := Execute(chan, fails);
    success := Interpret(o);
  }
}
