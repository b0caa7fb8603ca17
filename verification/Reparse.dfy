/** Reading the rewritten file again: when the result of `remove_duplicates` is a fixed point. */
module Reparse {
  import opened Lines
  import opened LineLists
  import opened Soundness
  import opened Compaction

  predicate EndsInCR(t: Text) { 0 < |t| && t[|t| - 1] == CR }

  /** What a parsed line looks like: valid, and without newline. */
  predicate Plain(c: Filter, t: Text)
  {
    Valid(c, t) && forall k | 0 <= k < |t| :: t[k] != LF
  }

  /** From `i` on, `s` is the texts, each followed by a newline that the last one may lack. */
  predicate LaidOut(s: seq<Byte>, i: nat, ts: seq<Text>)
    requires i <= |s|
    decreases |ts|
  {
    if ts == [] then i == |s|
    else
      var h := i + |ts[0]|;
      h <= |s| && Cut(s, i, h) == ts[0]
      && if h == |s| then |ts| == 1 else s[h] == LF && LaidOut(s, h + 1, ts[1..])
  }

  lemma {:induction false} ParsedClean(c: Filter, s: seq<Byte>, i: nat, e: nat)
    requires i <= e <= |s|
    ensures forall t | t in Texts(Parse(c, s, i, e)) :: Plain(c, t)
    decreases e - i
  {
    if i < e {
      ParsedClean(c, s, Next(s, i, e), e);
      var head := Head(c, s, i, e);
      TextsAppend(head, Parse(c, s, Next(s, i, e), e));
      if head != [] {
        var t := head[0].text;
        forall k | 0 <= k < |t| ensures t[k] != LF { assert t[k] == s[i + k]; }
        assert Texts(head) == [t];
      }
    }
  }

  /** `s` is `whole`, or all of it but a last newline. */
  predicate Nearly(s: seq<Byte>, whole: seq<Byte>) { s == whole || s + [LF] == whole }

  /** The joined texts, less at most the last newline, are laid out. */
  lemma {:induction false} JoinedLaidOut(pre: seq<Byte>, ts: seq<Text>, s: seq<Byte>)
    requires forall t | t in ts :: 0 < |t|
    requires Nearly(s, pre + Joined(ts)) && (ts == [] ==> |s| == |pre|)
    ensures |pre| <= |s| && LaidOut(s, |pre|, ts)
    decreases |ts|
  {
    if ts != [] {
      var t, rest := ts[0], ts[1..];
      assert pre + Joined(ts) == pre + t + [LF] + Joined(rest);
      assert t in ts && forall u | u in rest :: u in ts;
      HeadOfJoined(pre, t, Joined(rest), s);
      if |pre| + |t| < |s| {
        JoinedLaidOut(pre + t + [LF], rest, s);
      } else if rest != [] {
        JoinedSize(rest);
      }
    }
  }

  lemma JoinedSize(ts: seq<Text>)
    requires ts != []
    ensures |Joined(ts)| > 0
  { }

  lemma HeadOfJoined(pre: seq<Byte>, t: Text, more: seq<Byte>, s: seq<Byte>)
    requires Nearly(s, pre + t + [LF] + more)
    ensures var h := |pre| + |t|; h <= |s| && Cut(s, |pre|, h) == t && (h < |s| ==> s[h] == LF)
  {
    var whole, h := pre + t + [LF] + more, |pre| + |t|;
    assert forall k | 0 <= k < |s| :: s[k] == whole[k];
    assert whole[..h] == pre + t;
    assert forall k | 0 <= k < |t| :: whole[|pre| + k] == t[k];
  }

  /** No text that a newline follows ends in a carriage return. */
  predicate NoCRLF(s: seq<Byte>, i: nat, ts: seq<Text>)
    requires i <= |s| && LaidOut(s, i, ts)
    decreases |ts|
  {
    ts == [] || i + |ts[0]| == |s| || (!EndsInCR(ts[0]) && NoCRLF(s, i + |ts[0]| + 1, ts[1..]))
  }

  /** The line at `i` is read as its text, less a final carriage return if a newline follows. */
  lemma HeadLaidOut(c: Filter, s: seq<Byte>, i: nat, ts: seq<Text>)
    requires i < |s| && ts != [] && LaidOut(s, i, ts) && Plain(c, ts[0])
    ensures var h := i + |ts[0]|;
            Next(s, i, |s|) == (if h == |s| then h else h + 1) &&
            (h == |s| || !EndsInCR(ts[0]) ==> Head(c, s, i, |s|) == [Line(i, ts[0])]) &&
            (h < |s| && EndsInCR(ts[0]) ==> forall ln | ln in Head(c, s, i, |s|) :: |ln.text| < |ts[0]|)
  {
    var t, h := ts[0], i + |ts[0]|;
    forall k | i <= k < h ensures s[k] != LF { assert s[k] == t[k - i]; }
    NewlineIs(s, i, |s|, h);
    assert s[h - 1] == t[|t| - 1];
  }

  lemma {:induction false} Reread(c: Filter, s: seq<Byte>, i: nat, ts: seq<Text>)
    requires i <= |s| && LaidOut(s, i, ts) && forall t | t in ts :: Plain(c, t)
    ensures |Parse(c, s, i, |s|)| <= |ts|
    ensures Texts(Parse(c, s, i, |s|)) == ts <==> NoCRLF(s, i, ts)
    decreases |ts|
  {
    if ts != [] {
      var t, rest, h := ts[0], ts[1..], i + |ts[0]|;
      assert t in ts && forall u | u in rest :: u in ts;
      if h == |s| {
        RereadLast(c, s, i, t);
      } else {
        Reread(c, s, h + 1, rest);
        RereadNext(c, s, i, ts);
      }
    }
  }

  lemma RereadLast(c: Filter, s: seq<Byte>, i: nat, t: Text)
    requires i + |t| == |s| && Cut(s, i, |s|) == t && Plain(c, t)
    ensures Parse(c, s, i, |s|) == [Line(i, t)] && Texts([Line(i, t)]) == [t]
  {
    HeadLaidOut(c, s, i, [t]);
  }

  lemma RereadNext(c: Filter, s: seq<Byte>, i: nat, ts: seq<Text>)
    requires i < |s| && ts != [] && LaidOut(s, i, ts) && i + |ts[0]| < |s| && Plain(c, ts[0])
    requires |Parse(c, s, i + |ts[0]| + 1, |s|)| <= |ts| - 1
    ensures var tail := Parse(c, s, i + |ts[0]| + 1, |s|);
            |Parse(c, s, i, |s|)| <= |ts| &&
            (Texts(Parse(c, s, i, |s|)) == ts <==> !EndsInCR(ts[0]) && Texts(tail) == ts[1..])
  {
    HeadLaidOut(c, s, i, ts);
    var head, tail := Head(c, s, i, |s|), Parse(c, s, i + |ts[0]| + 1, |s|);
    assert Parse(c, s, i, |s|) == head + tail;
    TextsAppend(head, tail);
    TextsSize(tail);
    RereadStep(head, tail, ts[0], ts[1..]);
    assert ts == [ts[0]] + ts[1..];
  }

  lemma {:induction false} TextsSize(ls: seq<Line>)
    ensures |Texts(ls)| == |ls|
  {
    if ls != [] { TextsSize(ls[1..]); }
  }

  lemma RereadStep(head: seq<Line>, tail: seq<Line>, t: Text, rest: seq<Text>)
    requires |head| <= 1 && |tail| <= |rest| && Texts(head + tail) == Texts(head) + Texts(tail)
    requires |Texts(tail)| == |tail|
    ensures Texts(head + tail) == [t] + rest <==> (|head| == 1 && head[0].text == t && Texts(tail) == rest)
  {
    if |head| == 1 {
      assert Texts(head) == [head[0].text];
      assert ([head[0].text] + Texts(tail))[1..] == Texts(tail);
      assert ([t] + rest)[1..] == rest;
    } else {
      assert Texts(head) == [];
    }
  }

  lemma {:induction false} NoCRLFMeans(s: seq<Byte>, i: nat, ts: seq<Text>)
    requires i <= |s| && LaidOut(s, i, ts)
    ensures NoCRLF(s, i, ts) <==>
            forall k | 0 <= k < |ts| :: EndsInCR(ts[k]) ==> k == |ts| - 1 && |s| == i + |Joined(ts)| - 1
    decreases |ts|
  {
    if ts != [] {
      var h, rest := i + |ts[0]|, ts[1..];
      if h == |s| {
        assert rest == [];
      } else {
        NoCRLFMeans(s, h + 1, rest);
        assert forall k | 0 <= k < |rest| :: rest[k] == ts[k + 1];
        assert NoCRLF(s, i, ts) <==> !EndsInCR(ts[0]) && NoCRLF(s, h + 1, rest);
        LaidOutSize(s, h + 1, rest);
      }
    }
  }

  lemma {:induction false} LaidOutSize(s: seq<Byte>, i: nat, ts: seq<Text>)
    requires i <= |s| && LaidOut(s, i, ts)
    ensures |s| == i + |Joined(ts)| || (ts != [] && |s| == i + |Joined(ts)| - 1)
    decreases |ts|
  {
    if ts != [] && i + |ts[0]| < |s| { LaidOutSize(s, i + |ts[0]| + 1, ts[1..]); }
  }

  /** Reading the rewritten file again gives the same lines if and only if no line that a newline
      now follows ends in a carriage return. */
  lemma RereadsItself(c: Filter, n: nat, ts: seq<Text>)
    requires forall t | t in ts :: Plain(c, t)
    requires |Joined(ts)| <= n + 1
    ensures Texts(All(c, Output(n, ts))) == ts <==>
            forall k | 0 <= k < |ts| :: EndsInCR(ts[k]) ==> k == |ts| - 1 && |Joined(ts)| == n + 1
  {
    var s, j := Output(n, ts), Joined(ts);
    assert [] + j == j;
    if |j| > n {
      JoinedEnd(ts);
      assert s + [LF] == j;
    }
    JoinedLaidOut([], ts, s);
    Reread(c, s, 0, ts);
    NoCRLFMeans(s, 0, ts);
  }

  /** What `remove_duplicates` writes for a file reads as the same lines if and only if no line that
      a newline now follows ends in a carriage return. */
  lemma RewrittenReads(c: Filter, s: seq<Byte>)
    requires s != []
    ensures var ts := Texts(All(c, s));
            Texts(All(c, Output(|s|, ts))) == ts <==>
            forall k | 0 <= k < |ts| :: EndsInCR(ts[k]) ==> k == |ts| - 1 && |Joined(ts)| == |s| + 1
  {
    var ts := Texts(All(c, s));
    ParsedClean(c, s, 0, |s|);
    JoinedFits(c, s, 0);
    RereadsItself(c, |s|, ts);
  }

  /** A line that ends in two carriage returns loses one each time it is read. */
  lemma TwoReturns(c: Filter)
    requires 2 <= c.lineMax && !c.printable
    ensures var s: seq<Byte> := [120, CR, CR, LF];
            Texts(All(c, s)) == [[120, CR]] && Texts(All(c, Output(4, [[120, CR]]))) != [[120, CR]]
  {
    var s: seq<Byte>, t: Text := [120, CR, CR, LF], [120, CR];
    NewlineIs(s, 0, 4, 3);
    assert Cut(s, 0, 2) == t;
    assert Head(c, s, 0, 4) == [Line(0, t)] && All(c, s) == [Line(0, t)] + Parse(c, s, 4, 4);
    assert Texts(All(c, s)) == [t];
    assert EndsInCR([t][0]) && Joined([t]) == t + [LF];
    RewrittenReads(c, s);
  }
}
