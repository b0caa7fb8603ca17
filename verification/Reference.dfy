/** The reference program of test/scripts/reference-dedupe.py, on which the program's own
    differential tests rest. */
module Reference {
  import opened Lines
  import opened LineLists
  import opened Compaction
  import opened Soundness

  /** `re.split(b"\r\n|\n", s)`, scanning from `i` inside the piece that starts at `a`. */
  function Split(s: seq<Byte>, a: nat, i: nat): seq<Text>
    requires a <= i <= |s|
    decreases |s| - i
  {
    if i == |s| then [Cut(s, a, i)]
    else if s[i] == 13 && i + 1 < |s| && s[i + 1] == 10 then [Cut(s, a, i)] + Split(s, i + 2, i + 2)
    else if s[i] == 10 then [Cut(s, a, i)] + Split(s, i + 1, i + 1)
    else Split(s, a, i + 1)
  }

  /** The lines that the loop does not skip. */
  predicate Wanted(c: Filter, line: Text)
  {
    && line != []
    && |line| <= c.lineMax
    && line[0] != 0
    && (c.printable ==> forall k | 0 <= k < |line| :: 31 < line[k] < 127)
  }

  datatype Lists = Lists(uniques: seq<Text>, dupes: seq<Text>)

  /** The loop of `dedupe`. */
  function Loop(c: Filter, lines: seq<Text>, acc: Lists): Lists
    decreases |lines|
  {
    if lines == [] then acc
    else
      var line := lines[0];
      Loop(c, lines[1..],
           if !Wanted(c, line) then acc
           else if line in acc.uniques then acc.(dupes := acc.dupes + [line])
           else acc.(uniques := acc.uniques + [line]))
  }

  /** `b"\n".join(ts)` */
  function Join(ts: seq<Text>): seq<Byte>
  {
    if ts == [] then [] else if |ts| == 1 then ts[0] else ts[0] + [10] + Join(ts[1..])
  }

  function DedupeLists(c: Filter, content: seq<Byte>): Lists
  {
    Loop(c, Split(content, 0, 0), Lists([], []))
  }

  /** The first result of `dedupe`. */
  function DedupeResult(c: Filter, content: seq<Byte>): seq<Byte>
  {
    var result := Join(DedupeLists(c, content).uniques);
    if 0 < |result| < |content| then result + [10] else result
  }

  // ---------------------------------------------------------------- the reference and the parser

  lemma WantedIsValid(c: Filter, t: Text)
    ensures Wanted(c, t) <==> Valid(c, t)
  {
    if t != [] && c.printable && Printable(t) {
      forall k | 0 <= k < |t| ensures 31 < t[k] < 127 { assert IsPrint(t[k]); }
    }
  }

  function Select(c: Filter, ts: seq<Text>): seq<Text>
  {
    if ts == [] then [] else (if Wanted(c, ts[0]) then [ts[0]] else []) + Select(c, ts[1..])
  }

  /** The first piece that `re.split` cuts off is the text of the physical line. */
  lemma {:induction false} SplitHead(s: seq<Byte>, a: nat, i: nat)
    requires a < |s| && a <= i <= TextEnd(s, a, Newline(s, a, |s|), |s|)
    ensures var n := Newline(s, a, |s|);
            Split(s, a, i) == [Cut(s, a, TextEnd(s, a, n, |s|))] + if n < |s| then Split(s, n + 1, n + 1) else []
    decreases |s| - i
  {
    var n := Newline(s, a, |s|);
    var h := TextEnd(s, a, n, |s|);
    if i < h {
      assert s[i] != LF;
      if i + 1 < n { assert s[i + 1] != LF; }
      SplitHead(s, a, i + 1);
    }
  }

  /** The wanted pieces of `re.split` are the parsed lines. */
  lemma {:induction false} SplitIsParse(c: Filter, s: seq<Byte>, a: nat)
    requires a <= |s|
    ensures Select(c, Split(s, a, a)) == Texts(Parse(c, s, a, |s|))
    decreases |s| - a
  {
    if a == |s| {
      assert Split(s, a, a) == [[]];
    } else {
      var n := Newline(s, a, |s|);
      var t := Cut(s, a, TextEnd(s, a, n, |s|));
      var m := Next(s, a, |s|);
      var rest := if n < |s| then Split(s, n + 1, n + 1) else [];
      SplitHead(s, a, a);
      if n < |s| { SplitIsParse(c, s, m); }
      WantedIsValid(c, t);
      TextsAppend(Head(c, s, a, |s|), Parse(c, s, m, |s|));
      assert ([t] + rest)[1..] == rest;
      assert Texts(Head(c, s, a, |s|)) == if Wanted(c, t) then [t] else [];
    }
  }

  function SetOf(ts: seq<Text>): set<Text> { set t | t in ts }

  lemma SelectHead(c: Filter, lines: seq<Text>, ls: seq<Line>)
    requires lines != [] && Wanted(c, lines[0]) && Select(c, lines) == Texts(ls)
    ensures ls != [] && ls[0].text == lines[0] && Select(c, lines[1..]) == Texts(ls[1..])
    ensures Texts(ls) == [lines[0]] + Texts(ls[1..])
  {
    assert Select(c, lines)[1..] == Select(c, lines[1..]);
  }

  /** The loop collects the first occurrences. */
  lemma {:induction false} LoopIsKeep(c: Filter, lines: seq<Text>, ls: seq<Line>, acc: Lists)
    requires Select(c, lines) == Texts(ls)
    ensures Loop(c, lines, acc).uniques == acc.uniques + Texts(Keep(ls, SetOf(acc.uniques)))
    decreases |lines|
  {
    if lines == [] {
      assert ls == [];
    } else if !Wanted(c, lines[0]) {
      LoopIsKeep(c, lines[1..], ls, acc);
    } else {
      var line, u := lines[0], acc.uniques;
      SelectHead(c, lines, ls);
      if line in u {
        LoopIsKeep(c, lines[1..], ls[1..], acc.(dupes := acc.dupes + [line]));
      } else {
        assert SetOf(u + [line]) == SetOf(u) + {line};
        LoopIsKeep(c, lines[1..], ls[1..], acc.(uniques := u + [line]));
        var rest := Keep(ls[1..], SetOf(u + [line]));
        assert Keep(ls, SetOf(u)) == [ls[0]] + rest;
        assert ([ls[0]] + rest)[1..] == rest;
        assert u + ([line] + Texts(rest)) == (u + [line]) + Texts(rest);
      }
    }
  }

  /** Every wanted line is collected, as unique or as a duplicate. */
  lemma {:induction false} LoopBalance(c: Filter, lines: seq<Text>, acc: Lists)
    ensures var r := Loop(c, lines, acc);
            multiset(r.uniques) + multiset(r.dupes) ==
            multiset(acc.uniques) + multiset(acc.dupes) + multiset(Select(c, lines))
    decreases |lines|
  {
    if lines != [] {
      var line := lines[0];
      var acc' := if !Wanted(c, line) then acc
                  else if line in acc.uniques then acc.(dupes := acc.dupes + [line])
                  else acc.(uniques := acc.uniques + [line]);
      LoopBalance(c, lines[1..], acc');
      assert multiset(acc'.uniques) + multiset(acc'.dupes) ==
             multiset(acc.uniques) + multiset(acc.dupes) + (if Wanted(c, line) then multiset{line} else multiset{});
    }
  }

  lemma {:induction false} JoinIsJoined(ts: seq<Text>)
    requires ts != []
    ensures Joined(ts) == Join(ts) + [LF]
  {
    if |ts| > 1 { JoinIsJoined(ts[1..]); }
  }

  /** The unique lines of the reference program are the first occurrences of the parsed lines, and
      its duplicates are the others. */
  lemma ReferenceLists(c: Filter, s: seq<Byte>)
    ensures var r := DedupeLists(c, s);
            r.uniques == Texts(First(All(c, s))) &&
            multiset(r.uniques) + multiset(r.dupes) == multiset(Texts(All(c, s)))
  {
    SplitIsParse(c, s, 0);
    LoopIsKeep(c, Split(s, 0, 0), All(c, s), Lists([], []));
    LoopBalance(c, Split(s, 0, 0), Lists([], []));
    assert SetOf([]) == {};
  }

  /** Rewriting a file of as many bytes whose lines are the unique ones gives the reference result. */
  lemma ReferenceOutput(c: Filter, s: seq<Byte>, t: seq<Byte>)
    requires |s| == |t| && Texts(All(c, t)) == DedupeLists(c, s).uniques
    ensures Output(|t|, Texts(All(c, t))) == DedupeResult(c, s)
  {
    var ts := Texts(All(c, t));
    if t != [] { JoinedFits(c, t, 0); }
    if ts != [] {
      JoinIsJoined(ts);
      FirstNotEmpty(c, t);
      assert (Join(ts) + [LF])[..|Join(ts)|] == Join(ts);
    }
  }

  lemma FirstNotEmpty(c: Filter, t: seq<Byte>)
    requires Texts(All(c, t)) != []
    ensures |Join(Texts(All(c, t)))| > 0
  {
    ParseBounds(c, t, 0, |t|);
    var ls := All(c, t);
    assert ls[0] in ls;
  }
}
