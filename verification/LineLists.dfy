/** Lists of lines: first occurrences, and what removing lines does to them. */
module LineLists {
  import opened Lines

  function Texts(ls: seq<Line>): seq<Text>
  {
    if ls == [] then [] else [ls[0].text] + Texts(ls[1..])
  }

  function TextSet(ls: seq<Line>): set<Text>
  {
    if ls == [] then {} else {ls[0].text} + TextSet(ls[1..])
  }

  /** The lines of `ls` whose text is neither in `seen` nor carried by an earlier line. */
  function Keep(ls: seq<Line>, seen: set<Text>): seq<Line>
  {
    if ls == [] then []
    else if ls[0].text in seen then Keep(ls[1..], seen)
    else [ls[0]] + Keep(ls[1..], seen + {ls[0].text})
  }

  /** First occurrences, in order. */
  function First(ls: seq<Line>): seq<Line> { Keep(ls, {}) }

  /** Every line of `ls` that starts in `tags` repeats a text of `seen` or of an earlier line of
      `ls` that does not start in `tags`. */
  predicate Redundant(ls: seq<Line>, tags: set<nat>, seen: set<Text>)
  {
    ls == [] ||
    if ls[0].at in tags then ls[0].text in seen && Redundant(ls[1..], tags, seen)
    else Redundant(ls[1..], tags, seen + {ls[0].text})
  }

  lemma {:induction false} TextSetHas(ls: seq<Line>, ln: Line)
    requires ln in ls
    ensures ln.text in TextSet(ls)
  {
    if ln != ls[0] { TextSetHas(ls[1..], ln); }
  }

  lemma {:induction false} TextSetFrom(ls: seq<Line>, x: Text) returns (ln: Line)
    requires x in TextSet(ls)
    ensures ln in ls && ln.text == x
  {
    if x == ls[0].text { ln := ls[0]; } else { ln := TextSetFrom(ls[1..], x); }
  }

  lemma {:induction false} TextSetAppend(a: seq<Line>, b: seq<Line>)
    ensures TextSet(a + b) == TextSet(a) + TextSet(b)
  {
    if a == [] {
      assert a + b == b;
    } else {
      assert (a + b)[1..] == a[1..] + b;
      TextSetAppend(a[1..], b);
    }
  }

  lemma {:induction false} TextsAppend(a: seq<Line>, b: seq<Line>)
    ensures Texts(a + b) == Texts(a) + Texts(b)
  {
    if a == [] {
      assert a + b == b;
    } else {
      assert (a + b)[1..] == a[1..] + b;
      TextsAppend(a[1..], b);
    }
  }

  lemma {:induction false} KeepAppend(a: seq<Line>, b: seq<Line>, seen: set<Text>)
    ensures Keep(a + b, seen) == Keep(a, seen) + Keep(b, seen + TextSet(a))
  {
    if a == [] {
      assert a + b == b;
      assert seen + TextSet(a) == seen;
    } else {
      assert (a + b)[1..] == a[1..] + b;
      var seen' := seen + {a[0].text};
      if a[0].text in seen { assert seen' == seen; }
      KeepAppend(a[1..], b, seen');
      assert seen' + TextSet(a[1..]) == seen + TextSet(a);
    }
  }

  /** Texts that no line carries may be left out of `seen`. */
  lemma {:induction false} KeepIgnores(ls: seq<Line>, seen: set<Text>, more: set<Text>)
    requires TextSet(ls) !! more
    ensures Keep(ls, seen + more) == Keep(ls, seen)
  {
    if ls != [] {
      var seen' := seen + {ls[0].text};
      assert seen' + more == seen + more + {ls[0].text};
      if ls[0].text in seen { KeepIgnores(ls[1..], seen, more); } else { KeepIgnores(ls[1..], seen', more); }
    }
  }

  /** `Keep` keeps distinct texts, and one line for each text outside `seen`. */
  lemma {:induction false} KeepTexts(ls: seq<Line>, seen: set<Text>)
    ensures TextSet(Keep(ls, seen)) == TextSet(ls) - seen
    ensures |TextSet(Keep(ls, seen))| == |Keep(ls, seen)|
  {
    if ls != [] {
      var x := ls[0].text;
      if x in seen {
        KeepTexts(ls[1..], seen);
      } else {
        var rest := Keep(ls[1..], seen + {x});
        KeepTexts(ls[1..], seen + {x});
        assert Keep(ls, seen)[1..] == rest;
      }
    }
  }

  /** A list of distinct new texts is kept whole, and `Keep` yields such lists. */
  lemma {:induction false} KeepTwice(ls: seq<Line>, seen: set<Text>)
    ensures Keep(Keep(ls, seen), seen) == Keep(ls, seen)
  {
    if ls != [] {
      var x := ls[0].text;
      if x in seen {
        KeepTwice(ls[1..], seen);
      } else {
        KeepTwice(ls[1..], seen + {x});
        var k := Keep(ls, seen);
        assert k[1..] == Keep(ls[1..], seen + {x});
      }
    }
  }

  /** Removing redundant lines never changes the first occurrences. */
  lemma {:induction false} RedundantKeep(ls: seq<Line>, tags: set<nat>, seen: set<Text>)
    requires Redundant(ls, tags, seen)
    ensures Keep(Untagged(ls, tags), seen) == Keep(ls, seen)
    ensures seen + TextSet(Untagged(ls, tags)) == seen + TextSet(ls)
  {
    if ls != [] {
      var rest := Untagged(ls[1..], tags);
      if ls[0].at in tags {
        RedundantKeep(ls[1..], tags, seen);
        assert Untagged(ls, tags) == rest;
      } else {
        var x := ls[0].text;
        RedundantKeep(ls[1..], tags, seen + {x});
        assert Untagged(ls, tags)[1..] == rest;
        if x in seen { assert seen + {x} == seen; }
      }
    }
  }

  /** Only the places of the lines matter. */
  lemma {:induction false} UntaggedAgree(ls: seq<Line>, t: set<nat>, u: set<nat>)
    requires forall ln | ln in ls :: ln.at in t <==> ln.at in u
    ensures Untagged(ls, t) == Untagged(ls, u)
  {
    if ls != [] {
      assert ls[0] in ls && forall ln | ln in ls[1..] :: ln in ls;
      UntaggedAgree(ls[1..], t, u);
    }
  }
}
