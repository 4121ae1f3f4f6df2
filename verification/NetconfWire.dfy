/** The stream of messages a NETCONF device sends: where its markers are, and that a success marker
    lies within one message. */
module NetconfWire {
  import opened NetconfChannel

  // ------------------------------------------------------------------ messages on the wire

  function Wire(ms: seq<string>): string {
    if ms == [] then "" else Wire(ms[..|ms| - 1]) + (ms[|ms| - 1] + EOM)
  }

  /** Where message `i` starts. */
  function Start(ms: seq<string>, i: nat): nat
    requires i <= |ms|
  {
    |Wire(ms[..i])|
  }

  /** A message: it starts with a tag, contains no end-of-message marker and cannot run into one. */
  ghost predicate Framed(m: string) {
    && |m| > 0 && m[0] == '<'
    && (forall j :: !EomAt(m, j))
    && !(|m| >= 3 && m[|m| - 3] == ']' && m[|m| - 2] == ']' && m[|m| - 1] == '>')
  }

  lemma {:induction false} WirePrefix(ms: seq<string>, k: nat)
    requires k <= |ms|
    ensures Wire(ms[..k]) <= Wire(ms)
  {
    if k < |ms| {
      WirePrefix(ms[..|ms| - 1], k);
      assert ms[..|ms| - 1][..k] == ms[..k];
    } else {
      assert ms[..k] == ms;
    }
  }

  lemma StartsInOrder(ms: seq<string>, i: nat, k: nat)
    requires i <= k <= |ms|
    ensures Start(ms, i) <= Start(ms, k) <= |Wire(ms)|
  {
    WirePrefix(ms[..k], i);
    assert ms[..k][..i] == ms[..i];
    WirePrefix(ms, k);
  }

  lemma MessageAt(ms: seq<string>, i: nat)
    requires i < |ms|
    ensures var s, b := Wire(ms), Start(ms, i);
      && Start(ms, i + 1) == b + |ms[i]| + |EOM| <= |s|
      && s[b..b + |ms[i]|] == ms[i] && s[b + |ms[i]|..Start(ms, i + 1)] == EOM
  {
    assert ms[..i + 1][..i] == ms[..i];
    WirePrefix(ms, i + 1);
  }

  lemma {:induction false} InMessage(ms: seq<string>, c: nat) returns (i: nat)
    requires c < |Wire(ms)|
    ensures i < |ms| && Start(ms, i) <= c < Start(ms, i + 1)
  {
    var n := |ms| - 1;
    assert ms[..|ms|] == ms;
    if c < |Wire(ms[..n])| {
      i := InMessage(ms[..n], c);
      assert ms[..n][..i] == ms[..i] && ms[..n][..i + 1] == ms[..i + 1];
    } else {
      i := n;
    }
  }

  predicate EomChars(s: string, e: int) {
    && 0 <= e && e + 6 <= |s|
    && s[e] == ']' && s[e + 1] == ']' && s[e + 2] == '>' && s[e + 3] == ']' && s[e + 4] == ']' && s[e + 5] == '>'
  }

  lemma EomIsChars(s: string, e: int)
    ensures EomAt(s, e) <==> EomChars(s, e)
  {
    if 0 <= e && e + 6 <= |s| { assert |s[e..e + 6]| == 6; }
  }

  lemma EndChars(ms: seq<string>, i: nat)
    requires i < |ms|
    ensures Start(ms, i) + |ms[i]| + 6 == Start(ms, i + 1) <= |Wire(ms)|
    ensures EomChars(Wire(ms), Start(ms, i) + |ms[i]|)
  {
    MessageAt(ms, i);
    EomIsChars(Wire(ms), Start(ms, i) + |ms[i]|);
  }

  lemma MessageChars(ms: seq<string>, i: nat, k: nat)
    requires i < |ms| && k < |ms[i]|
    ensures Start(ms, i) + k < |Wire(ms)| && Wire(ms)[Start(ms, i) + k] == ms[i][k]
  {
    MessageAt(ms, i);
    assert Wire(ms)[Start(ms, i)..Start(ms, i) + |ms[i]|][k] == ms[i][k];
  }

  lemma EomWithin(ms: seq<string>, i: nat, e: nat)
    requires i < |ms| && Start(ms, i) <= e && e + 6 <= Start(ms, i) + |ms[i]|
    ensures EomAt(Wire(ms), e) <==> EomAt(ms[i], e - Start(ms, i))
  {
    var o := e - Start(ms, i);
    MessageChars(ms, i, o);
    MessageChars(ms, i, o + 1);
    MessageChars(ms, i, o + 2);
    MessageChars(ms, i, o + 3);
    MessageChars(ms, i, o + 4);
    MessageChars(ms, i, o + 5);
    EomIsChars(Wire(ms), e);
    EomIsChars(ms[i], e - Start(ms, i));
  }

  /** Two overlapping markers share three characters. */
  lemma Overlap(s: string, b: int, e: int)
    requires EomChars(s, b) && EomChars(s, e) && b - 6 < e < b + 6 && e != b
    ensures e == b - 3 || e == b + 3
  {
  }

  /** A marker cannot start in a message and end in the marker behind it. */
  lemma EomAcross(ms: seq<string>, i: nat, e: nat)
    requires i < |ms| && Framed(ms[i]) && Start(ms, i) <= e < Start(ms, i) + |ms[i]| < e + 6
    ensures !EomAt(Wire(ms), e)
  {
    var l := |ms[i]|;
    EndChars(ms, i);
    EomIsChars(Wire(ms), e);
    if e + 3 == Start(ms, i) + l {
      MessageChars(ms, i, l - 3);
      MessageChars(ms, i, l - 2);
      MessageChars(ms, i, l - 1);
    } else if EomChars(Wire(ms), e) {
      Overlap(Wire(ms), Start(ms, i) + l, e);
    }
  }

  /** No marker starts inside a message. */
  lemma NoEomInMessage(ms: seq<string>, i: nat, e: nat)
    requires i < |ms| && Framed(ms[i]) && Start(ms, i) <= e < Start(ms, i) + |ms[i]|
    ensures !EomAt(Wire(ms), e)
  {
    if e + 6 <= Start(ms, i) + |ms[i]| {
      EomWithin(ms, i, e);
    } else {
      EomAcross(ms, i, e);
    }
  }

  lemma NoSecondEom(s: string, b: int, e: int)
    requires EomChars(s, b) && b < e < b + 6 && (|s| == b + 6 || s[b + 6] == '<')
    ensures !EomChars(s, e)
  {
  }

  lemma AfterEnd(ms: seq<string>, i: nat)
    requires i < |ms| && (i + 1 < |ms| ==> Framed(ms[i + 1]))
    ensures Start(ms, i + 1) <= |Wire(ms)|
    ensures |Wire(ms)| == Start(ms, i + 1) || Wire(ms)[Start(ms, i + 1)] == '<'
  {
    EndChars(ms, i);
    if i + 1 < |ms| {
      MessageChars(ms, i + 1, 0);
    } else {
      assert ms[..i + 1] == ms;
    }
  }

  /** Nor inside the marker that ends it. */
  lemma NoEomInEom(ms: seq<string>, i: nat, e: nat)
    requires i < |ms| && Start(ms, i) + |ms[i]| < e < Start(ms, i + 1)
    requires i + 1 < |ms| ==> Framed(ms[i + 1])
    ensures !EomAt(Wire(ms), e)
  {
    EndChars(ms, i);
    AfterEnd(ms, i);
    EomIsChars(Wire(ms), e);
    NoSecondEom(Wire(ms), Start(ms, i) + |ms[i]|, e);
  }

  lemma EomOnlyAtEnds(ms: seq<string>, e: nat) returns (i: nat)
    requires (forall m :: m in ms ==> Framed(m)) && EomAt(Wire(ms), e)
    ensures i < |ms| && e == Start(ms, i) + |ms[i]|
  {
    i := InMessage(ms, e);
    if e < Start(ms, i) + |ms[i]| {
      NoEomInMessage(ms, i, e);
    } else if e > Start(ms, i) + |ms[i]| {
      NoEomInEom(ms, i, e);
    }
  }

  lemma MarkersHaveNoBrackets(m: nat, k: nat)
    requires m < |MARKERS| && k < |MARKERS[m]|
    ensures MARKERS[m][k] != ']' && MARKERS[m][k] != '>'
  {
  }

  /** A success marker in the stream lies within one message. */
  lemma MarkerInMessage(ms: seq<string>, m: nat, g: nat) returns (i: nat)
    requires m < |MARKERS| && OccursAt(Wire(ms), MARKERS[m], g)
    ensures i < |ms| && Start(ms, i) <= g < Start(ms, i) + |ms[i]| && HasMarker(ms[i])
  {
    var s, pattern := Wire(ms), MARKERS[m];
    i := InMessage(ms, g);
    var b, l := Start(ms, i), |ms[i]|;
    EndChars(ms, i);
    if g + |pattern| > b + l {
      var k := if g >= b + l then 0 else b + l - g;
      MarkersHaveNoBrackets(m, k);
      assert false;
    }
    forall k | 0 <= k < |pattern|
      ensures Lower(ms[i][g - b + k]) == pattern[k]
    {
      MessageChars(ms, i, g - b + k);
    }
    assert OccursAt(ms[i], pattern, g - b);
    assert Contains(ms[i], MARKERS[m]);
  }
}
