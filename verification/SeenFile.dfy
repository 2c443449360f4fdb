/**
 * The file of message ids that need not be shown again: one id a line. A carriage return and the
 * line feed after it are one character, so such a line feed does not end a line.
 */
module SeenFile {

  predicate BreakAt(s: string, i: nat)
    requires i < |s|
  {
    s[i] == '\n' && (i == 0 || s[i - 1] != '\r')
  }

  predicate Unbroken(s: string) {
    forall i :: 0 <= i < |s| ==> !BreakAt(s, i)
  }

  predicate EndsWithReturn(s: string) {
    s != "" && s[|s| - 1] == '\r'
  }

  /** The first break at or after a position, or the end. */
  function NextBreak(s: string, from: nat): (r: nat)
    requires from <= |s|
    ensures from <= r <= |s|
    ensures r < |s| ==> BreakAt(s, r)
    ensures forall i :: from <= i < r ==> !BreakAt(s, i)
    decreases |s| - from
  {
    if from == |s| || BreakAt(s, from) then from else NextBreak(s, from + 1)
  }

  function Pieces(s: string): (r: seq<string>)
    ensures r != [] && forall i :: 0 <= i < |r| ==> Unbroken(r[i])
    decreases |s|
  {
    var e := NextBreak(s, 0);
    if e == |s| then [s]
    else
      assert forall i :: 0 <= i < e ==> !BreakAt(s, i) && (BreakAt(s[..e], i) <==> BreakAt(s, i));
      [s[..e]] + Pieces(s[e + 1..])
  }

  function NonEmpty(xs: seq<string>): (r: seq<string>)
    ensures |r| <= |xs|
    ensures forall x :: x in r <==> x in xs && x != ""
  {
    if xs == [] then [] else (if xs[0] == "" then [] else [xs[0]]) + NonEmpty(xs[1..])
  }

  /** The ids in a file. */
  function Lines(s: string): (r: seq<string>)
    ensures forall x :: x in r ==> x != "" && Unbroken(x)
  {
    NonEmpty(Pieces(s))
  }

  /** The file with these ids, in order. */
  function Join(ids: seq<string>): string {
    if ids == [] then "" else if |ids| == 1 then ids[0] else ids[0] + "\n" + Join(ids[1..])
  }

  /**
   * What a file can hold: no empty ids, no breaks in ids, and no carriage return before the line feed between
   * two ids.
   */
  predicate Storable(ids: seq<string>) {
    && (forall i :: 0 <= i < |ids| ==> ids[i] != "" && Unbroken(ids[i]))
    && (forall i :: 0 <= i < |ids| - 1 ==> !EndsWithReturn(ids[i]))
  }

  predicate Distinct(ids: seq<string>) {
    forall i, j :: 0 <= i < j < |ids| ==> ids[i] != ids[j]
  }

  function Elements(xs: seq<string>): (r: set<string>)
    ensures |r| <= |xs| && forall x :: x in r <==> x in xs
  {
    if xs == [] then {} else {xs[0]} + Elements(xs[1..])
  }

  lemma {:induction false} DistinctElements(xs: seq<string>)
    requires Distinct(xs)
    ensures |Elements(xs)| == |xs|
  {
    if xs != [] {
      DistinctElements(xs[1..]);
    }
  }

  /** The first id of a file is cut off at the line feed behind it, unless it ends with a carriage return. */
  lemma CutsFirst(a: string, rest: string)
    requires Unbroken(a) && !EndsWithReturn(a)
    ensures Pieces(a + "\n" + rest) == [a] + Pieces(rest)
  {
    var s := a + "\n" + rest;
    assert forall i :: 0 <= i < |a| ==> (BreakAt(s, i) <==> BreakAt(a, i));
    assert BreakAt(s, |a|);
    var e := NextBreak(s, 0);
    assert e == |a|;
    assert s[..e] == a && s[e + 1..] == rest;
  }

  lemma Whole(a: string)
    requires Unbroken(a)
    ensures Pieces(a) == [a]
  {
  }

  lemma {:induction false} PiecesOfStorable(ids: seq<string>)
    requires Storable(ids) && ids != []
    ensures Pieces(Join(ids)) == ids
    decreases |ids|
  {
    if |ids| == 1 {
      Whole(ids[0]);
    } else {
      PiecesOfStorable(ids[1..]);
      CutsFirst(ids[0], Join(ids[1..]));
      assert [ids[0]] + ids[1..] == ids;
    }
  }

  /** There are never more lines than ids, and fewer if an id before the last ends with a carriage return. */
  lemma {:induction false} MergedLines(ids: seq<string>)
    requires ids != [] && forall i :: 0 <= i < |ids| ==> Unbroken(ids[i])
    ensures |Pieces(Join(ids))| <= |ids|
    ensures (exists i :: 0 <= i < |ids| - 1 && EndsWithReturn(ids[i])) ==> |Pieces(Join(ids))| < |ids|
    decreases |ids|
  {
    if |ids| == 1 {
      Whole(ids[0]);
    } else if EndsWithReturn(ids[0]) {
      var both := ids[0] + "\n" + ids[1];
      var ids' := [both] + ids[2..];
      BothUnbroken(ids[0], ids[1]);
      assert ids == [ids[0]] + ([ids[1]] + ids[2..]);
      MergeFirst(ids[0], ids[1], ids[2..]);
      MergedLines(ids');
    } else {
      CutsFirst(ids[0], Join(ids[1..]));
      MergedLines(ids[1..]);
      if i :| 0 <= i < |ids| - 1 && EndsWithReturn(ids[i]) {
        assert EndsWithReturn(ids[1..][i - 1]);
      }
    }
  }

  lemma BothUnbroken(a: string, b: string)
    requires Unbroken(a) && Unbroken(b) && EndsWithReturn(a)
    ensures Unbroken(a + "\n" + b)
  {
    var s := a + "\n" + b;
    forall i | 0 <= i < |s|
      ensures !BreakAt(s, i)
    {
      if i < |a| {
        assert BreakAt(s, i) <==> BreakAt(a, i);
      } else if i > |a| {
        assert !BreakAt(b, i - |a| - 1);
      }
    }
  }

  lemma JoinStep(a: string, rest: seq<string>)
    requires rest != []
    ensures Join([a] + rest) == a + "\n" + Join(rest)
  {
    assert ([a] + rest)[1..] == rest;
  }

  lemma JoinOne(a: string)
    ensures Join([a]) == a
  {
  }

  lemma Glue(a: string, b: string, c: string)
    ensures a + "\n" + (b + "\n" + c) == (a + "\n" + b) + "\n" + c
  {
  }

  lemma MergeFirst(a: string, b: string, rest: seq<string>)
    ensures Join([a] + ([b] + rest)) == Join([a + "\n" + b] + rest)
  {
    hide Join;
    JoinStep(a, [b] + rest);
    if rest == [] {
      assert [b] + rest == [b] && [a + "\n" + b] + rest == [a + "\n" + b];
      JoinOne(b);
      JoinOne(a + "\n" + b);
    } else {
      JoinStep(b, rest);
      JoinStep(a + "\n" + b, rest);
      Glue(a, b, Join(rest));
    }
  }

  /** Writing a set of ids and reading it again gives it back exactly if the file can hold it. */
  lemma RoundTripIff(ids: seq<string>)
    requires Distinct(ids)
    ensures Elements(Lines(Join(ids))) == Elements(ids) <==> Storable(ids)
  {
    var back := Lines(Join(ids));
    if ids == [] {
      assert Pieces("") == [""];
      assert back == [];
    } else if Storable(ids) {
      PiecesOfStorable(ids);
      assert forall x :: x in back <==> x in ids;
    } else if i :| 0 <= i < |ids| && (ids[i] == "" || !Unbroken(ids[i])) {
      assert ids[i] in Elements(ids) && ids[i] !in Elements(back);
    } else {
      MergedLines(ids);
      DistinctElements(ids);
      assert |Elements(back)| < |Elements(ids)|;
    }
  }

  /**
   * Not every set of ids without line feeds survives: an id that ends with a carriage return is merged with the
   * next.
   */
  lemma ReturnLosesIds()
    ensures Distinct(["a\r", "b"]) && '\n' !in "a\r" && '\n' !in "b"
    ensures Lines(Join(["a\r", "b"])) == ["a\r\nb"]
  {
    MergeFirst("a\r", "b", []);
    assert ["a\r"] + (["b"] + []) == ["a\r", "b"] && ["a\r\nb"] + [] == ["a\r\nb"];
    assert "a\r" + "\n" + "b" == "a\r\nb";
    JoinOne("a\r\nb");
    Whole("a\r\nb");
  }
}
