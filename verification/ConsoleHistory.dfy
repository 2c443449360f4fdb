/** The history of console lines: a bounded queue and a position in it, moved up and down by the user. */
module ConsoleHistory {

  const MAX_LINES := 256

  /** Chat lines start with a letter for the addressees and a colon. */
  predicate HasPrefix(s: string) {
    |s| >= 2 && s[0] in {'a', 'A', 's', 'S'} && s[1] == ':'
  }

  function Prefix(s: string): string {
    if HasPrefix(s) then s[..2] else ""
  }

  function Body(s: string): string {
    if HasPrefix(s) then s[2..] else s
  }

  datatype State = State(lines: seq<string>, pos: nat)

  /** The queue is never empty nor too long, no two neighbours are equal, and only the first line can be empty. */
  ghost predicate Invariant(s: State) {
    && 1 <= |s.lines| <= MAX_LINES
    && s.pos <= |s.lines|
    && (forall i :: 0 <= i < |s.lines| - 1 ==> s.lines[i] != s.lines[i + 1])
    && (forall i :: 0 < i < |s.lines| ==> s.lines[i] != "")
  }

  const EMPTY := State([""], 1)

  /** Blank lines and repetitions are not stored; a full queue loses its first line. */
  function AddRaw(s: State, msg: string): (State, bool)
    requires s.lines != []
  {
    if msg == "" || s.lines[|s.lines| - 1] == msg then (s, false)
    else (s.(lines := (if |s.lines| >= MAX_LINES then s.lines[1..] else s.lines) + [msg]), true)
  }

  function Next(s: State, current: string): (State, string)
    requires s.lines != [] && s.pos <= |s.lines|
    ensures var s' := Next(s, current).0; s'.lines != [] && s'.pos <= |s'.lines|
  {
    var (prefix, message) := (Prefix(current), Body(current));
    var (added, stored) := AddRaw(s, message);
    if s.pos == |s.lines| then (added.(pos := |added.lines|), prefix)
    else
      var differs := s.lines[s.pos] != message;
      if differs && s.pos == |s.lines| - 1 && stored then (added.(pos := |added.lines|), prefix)
      else
        var s1 := if differs then added else s;
        var s2 := s1.(pos := s1.pos + 1);
        (s2, if s2.pos == |s2.lines| then prefix else prefix + s2.lines[s2.pos])
  }

  function Prev(s: State, current: string): (State, string)
    requires s.lines != [] && s.pos <= |s.lines|
    ensures var s' := Prev(s, current).0; s'.lines != [] && s'.pos <= |s'.lines|
  {
    var (prefix, message) := (Prefix(current), Body(current));
    var s1 := if s.pos == |s.lines| || s.lines[s.pos] != message then AddRaw(s, message).0 else s;
    if s.pos == 0 then (s1, prefix)
    else (s1.(pos := s.pos - 1), prefix + s1.lines[s.pos - 1])
  }

  lemma AddRawKeeps(s: State, msg: string)
    requires Invariant(s)
    ensures Invariant(AddRaw(s, msg).0) && |s.lines| <= |AddRaw(s, msg).0.lines|
  {
  }

  lemma MovesKeep(s: State, current: string)
    requires Invariant(s)
    ensures Invariant(Next(s, current).0) && Invariant(Prev(s, current).0)
  {
    AddRawKeeps(s, Body(current));
  }

  // ----- looking through the history -----

  /** k moves up, each given the line that the one before returned. */
  function PrevTimes(s: State, current: string, k: nat): (State, seq<string>)
    requires s.lines != [] && s.pos <= |s.lines|
    ensures |PrevTimes(s, current, k).1| == k
    ensures var r := PrevTimes(s, current, k).0; r.lines != [] && r.pos <= |r.lines|
    decreases k
  {
    if k == 0 then (s, [])
    else
      var (s1, line) := Prev(s, current);
      var (s2, shown) := PrevTimes(s1, line, k - 1);
      (s2, [line] + shown)
  }

  function NextTimes(s: State, current: string, k: nat): (State, seq<string>)
    requires s.lines != [] && s.pos <= |s.lines|
    ensures |NextTimes(s, current, k).1| == k
    ensures var r := NextTimes(s, current, k).0; r.lines != [] && r.pos <= |r.lines|
    decreases k
  {
    if k == 0 then (s, [])
    else
      var (s1, line) := Next(s, current);
      var (s2, shown) := NextTimes(s1, line, k - 1);
      (s2, [line] + shown)
  }

  /**
   * A draft without text: empty, or a chat prefix alone. A returned line is read back as it was
   * stored if the draft has a prefix, or if the line itself does not look as if it had one.
   */
  predicate Faithful(s: State, draft: string, from: nat) {
    && (draft == "" || (HasPrefix(draft) && |draft| == 2))
    && (draft == "" ==> forall i :: from <= i < |s.lines| ==> !HasPrefix(s.lines[i]))
  }

  /** What the user's line reads while looking at a position of the history. */
  function LineAt(s: State, draft: string): string
    requires s.pos <= |s.lines|
  {
    if s.pos == |s.lines| then draft else draft + s.lines[s.pos]
  }

  lemma ReadBack(s: State, draft: string)
    requires s.pos <= |s.lines| && Faithful(s, draft, s.pos)
    ensures Prefix(LineAt(s, draft)) == draft
    ensures Body(LineAt(s, draft)) == if s.pos == |s.lines| then "" else s.lines[s.pos]
  {
  }

  lemma PrevStep(s: State, draft: string)
    requires Invariant(s) && s.pos > 0 && Faithful(s, draft, s.pos)
    ensures var up := s.(pos := s.pos - 1); Prev(s, LineAt(s, draft)) == (up, LineAt(up, draft))
  {
    ReadBack(s, draft);
  }

  /** Down from a line that is read back as it was stored, or without any text. */
  lemma NextFrom(s: State, draft: string, current: string)
    requires Invariant(s) && s.pos < |s.lines| && Prefix(current) == draft
    requires Body(current) == "" || Body(current) == s.lines[s.pos]
    ensures var down := s.(pos := s.pos + 1); Next(s, current) == (down, LineAt(down, draft))
  {
  }

  lemma NextStep(s: State, draft: string)
    requires Invariant(s) && s.pos < |s.lines| && Faithful(s, draft, s.pos)
    ensures var down := s.(pos := s.pos + 1); Next(s, LineAt(s, draft)) == (down, LineAt(down, draft))
  {
    ReadBack(s, draft);
    NextFrom(s, draft, LineAt(s, draft));
  }

  /** The k lines above a position, from below. */
  function LinesUp(s: State, draft: string, k: nat): (r: seq<string>)
    requires k <= s.pos <= |s.lines|
    ensures |r| == k
    decreases k
  {
    if k == 0 then [] else var up := s.(pos := s.pos - 1); [LineAt(up, draft)] + LinesUp(up, draft, k - 1)
  }

  /** The k lines below a position, the last of which may be the draft. */
  function LinesDown(s: State, draft: string, k: nat): (r: seq<string>)
    requires s.pos + k <= |s.lines|
    ensures |r| == k
    decreases k
  {
    if k == 0 then [] else var down := s.(pos := s.pos + 1); [LineAt(down, draft)] + LinesDown(down, draft, k - 1)
  }

  lemma {:induction false} LinesUpAt(s: State, draft: string, k: nat, i: nat)
    requires i < k <= s.pos <= |s.lines|
    ensures LinesUp(s, draft, k)[i] == LineAt(State(s.lines, s.pos - 1 - i), draft)
    decreases k
  {
    hide LineAt;
    if i > 0 {
      LinesUpAt(s.(pos := s.pos - 1), draft, k - 1, i - 1);
    }
  }

  lemma {:induction false} LinesDownAt(s: State, draft: string, k: nat, i: nat)
    requires s.pos + k <= |s.lines| && i < k
    ensures LinesDown(s, draft, k)[i] == LineAt(State(s.lines, s.pos + 1 + i), draft)
    decreases k
  {
    hide LineAt;
    if i > 0 {
      LinesDownAt(s.(pos := s.pos + 1), draft, k - 1, i - 1);
    }
  }

  lemma {:induction false} GoUp(s: State, draft: string, k: nat)
    requires Invariant(s) && k <= s.pos && Faithful(s, draft, s.pos - k)
    ensures PrevTimes(s, LineAt(s, draft), k) == (s.(pos := s.pos - k), LinesUp(s, draft, k))
    decreases k
  {
    hide Prev, LineAt;
    if k > 0 {
      PrevStep(s, draft);
      GoUp(s.(pos := s.pos - 1), draft, k - 1);
    }
  }

  lemma {:induction false} GoDown(s: State, draft: string, k: nat)
    requires Invariant(s) && s.pos + k <= |s.lines| && Faithful(s, draft, s.pos)
    ensures NextTimes(s, LineAt(s, draft), k) == (s.(pos := s.pos + k), LinesDown(s, draft, k))
    decreases k
  {
    hide Next, LineAt;
    if k > 0 {
      NextStep(s, draft);
      GoDown(s.(pos := s.pos + 1), draft, k - 1);
    }
  }

  /** Lines shown on the way down, against those shown on the way up. */
  predicate Mirrors(draft: string, shown: seq<string>, again: seq<string>) {
    && |again| == |shown| > 0
    && again[|again| - 1] == draft
    && forall i :: 0 <= i < |shown| - 1 ==> again[i] == shown[|shown| - 2 - i]
  }

  lemma LinesMirror(s: State, draft: string, k: nat)
    requires s.pos == |s.lines| && 0 < k <= |s.lines|
    ensures LinesUp(s, draft, k)[k - 1] == LineAt(State(s.lines, s.pos - k), draft)
    ensures Mirrors(draft, LinesUp(s, draft, k), LinesDown(State(s.lines, s.pos - k), draft, k))
  {
    hide LinesUp, LinesDown;
    var up := State(s.lines, s.pos - k);
    LinesUpAt(s, draft, k, k - 1);
    LinesDownAt(up, draft, k, k - 1);
    forall i | 0 <= i < k - 1
      ensures LinesDown(up, draft, k)[i] == LinesUp(s, draft, k)[k - 2 - i]
    {
      LinesDownAt(up, draft, k, i);
      LinesUpAt(s, draft, k, k - 2 - i);
    }
  }

  lemma FaithfulRetraces(s: State, draft: string, k: nat)
    requires Invariant(s) && s.pos == |s.lines| && 0 < k <= |s.lines| && Faithful(s, draft, |s.lines| - k)
    ensures var (up, shown) := PrevTimes(s, draft, k);
            var (down, again) := NextTimes(up, shown[k - 1], k);
            down == s && up.lines == s.lines && Mirrors(draft, shown, again)
  {
    hide Prev, Next, PrevTimes, NextTimes, Mirrors, LinesUp, LinesDown;
    GoUp(s, draft, k);
    GoDown(State(s.lines, s.pos - k), draft, k);
    LinesMirror(s, draft, k);
  }

  // ----- further than the history goes -----

  /** The position k moves above the end, or the top. */
  function Reached(s: State, k: nat): nat {
    if k < |s.lines| then |s.lines| - k else 0
  }

  lemma {:induction false} PrevSplit(s: State, current: string, a: nat, b: nat)
    requires s.lines != [] && s.pos <= |s.lines| && a > 0 && b > 0
    ensures var (mid, shown) := PrevTimes(s, current, a);
            var (s', rest) := PrevTimes(mid, shown[a - 1], b);
            PrevTimes(s, current, a + b).0 == s' && PrevTimes(s, current, a + b).1[a + b - 1] == rest[b - 1]
    decreases a
  {
    hide Prev;
    if a > 1 {
      PrevSplit(Prev(s, current).0, Prev(s, current).1, a - 1, b);
    }
  }

  lemma {:induction false} NextSplit(s: State, current: string, a: nat, b: nat)
    requires s.lines != [] && s.pos <= |s.lines| && a > 0 && b > 0
    ensures var (mid, shown) := NextTimes(s, current, a);
            var (s', rest) := NextTimes(mid, shown[a - 1], b);
            NextTimes(s, current, a + b).0 == s' && NextTimes(s, current, a + b).1[a + b - 1] == rest[b - 1]
    decreases a
  {
    hide Next;
    if a > 1 {
      NextSplit(Next(s, current).0, Next(s, current).1, a - 1, b);
    }
  }

  /** At the top, further moves up show the draft and change nothing. */
  lemma {:induction false} StaysAtTop(s: State, draft: string, current: string, k: nat)
    requires Invariant(s) && s.pos == 0 && k > 0 && Faithful(s, draft, 0)
    requires Prefix(current) == draft && (Body(current) == "" || Body(current) == s.lines[0])
    ensures var (s', shown) := PrevTimes(s, current, k); s' == s && shown[k - 1] == draft
    decreases k
  {
    assert Prev(s, current) == (s, draft);
    assert Prefix(draft) == draft && Body(draft) == "";
    hide Prev, Prefix, Body, Faithful, Invariant;
    if k > 1 {
      StaysAtTop(s, draft, draft, k - 1);
    }
  }

  /** At the end, further moves down keep the draft and change nothing. */
  lemma {:induction false} StaysAtEnd(s: State, draft: string, k: nat)
    requires Invariant(s) && s.pos == |s.lines| && k > 0 && Faithful(s, draft, 0)
    ensures var (s', shown) := NextTimes(s, draft, k); s' == s && shown[k - 1] == draft
    decreases k
  {
    assert Prefix(draft) == draft && Body(draft) == "";
    assert Next(s, draft) == (s, draft);
    hide Next, Faithful, Invariant;
    if k > 1 {
      StaysAtEnd(s, draft, k - 1);
    }
  }

  /** From the top, where the draft alone is shown, down to the end. */
  lemma DownFromDraft(s: State, draft: string)
    requires Invariant(s) && s.pos == 0 && Faithful(s, draft, 0)
    ensures var n := |s.lines|;
            var (s', shown) := NextTimes(s, draft, n);
            s' == s.(pos := n) && shown[n - 1] == draft
  {
    var down, n := s.(pos := 1), |s.lines|;
    assert Prefix(draft) == draft && Body(draft) == "";
    NextFrom(s, draft, draft);
    assert Faithful(down, draft, 1);
    hide Next, Prefix, Body, HasPrefix, Faithful, LinesDown;
    GoDown(down, draft, n - 1);
    if n > 1 {
      LinesDownAt(down, draft, n - 1, n - 2);
    }
  }

  lemma UpToTop(s: State, draft: string)
    requires Invariant(s) && s.pos == |s.lines| && Faithful(s, draft, 0)
    ensures var (n, top) := (|s.lines|, s.(pos := 0));
            var (up, shown) := PrevTimes(s, draft, n);
            && up == top && shown[n - 1] == LineAt(top, draft)
            && Prefix(LineAt(top, draft)) == draft && Body(LineAt(top, draft)) == s.lines[0]
  {
    hide Prev, PrevTimes, LinesUp, Prefix, Body;
    ReadBack(s.(pos := 0), draft);
    GoUp(s, draft, |s.lines|);
    LinesUpAt(s, draft, |s.lines|, |s.lines| - 1);
  }

  lemma UpPastTop(s: State, draft: string, k: nat)
    requires Invariant(s) && s.pos == |s.lines| && k > |s.lines| && Faithful(s, draft, 0)
    ensures var (up, shown) := PrevTimes(s, draft, k); up == s.(pos := 0) && shown[k - 1] == draft
  {
    var n, top := |s.lines|, s.(pos := 0);
    assert Faithful(top, draft, 0);
    hide PrevTimes, Faithful, Prefix, Body, LineAt, Invariant;
    UpToTop(s, draft);
    var (mid, shown) := PrevTimes(s, draft, n);
    assert mid == top && shown[n - 1] == LineAt(top, draft);
    PrevSplit(s, draft, n, k - n);
    StaysAtTop(top, draft, LineAt(top, draft), k - n);
  }

  lemma DownPastEnd(s: State, draft: string, k: nat)
    requires Invariant(s) && s.pos == 0 && k > |s.lines| && Faithful(s, draft, 0)
    ensures var (down, again) := NextTimes(s, draft, k); down == s.(pos := |s.lines|) && again[k - 1] == draft
  {
    var n, end := |s.lines|, s.(pos := |s.lines|);
    assert Faithful(end, draft, 0);
    hide NextTimes, Faithful, Invariant;
    DownFromDraft(s, draft);
    var (mid, shown) := NextTimes(s, draft, n);
    assert mid == end && shown[n - 1] == draft;
    NextSplit(s, draft, n, k - n);
    StaysAtEnd(end, draft, k - n);
  }

  lemma FarRetraces(s: State, draft: string, k: nat)
    requires Invariant(s) && s.pos == |s.lines| && k > |s.lines| && Faithful(s, draft, 0)
    ensures var (up, shown) := PrevTimes(s, draft, k);
            var (down, again) := NextTimes(up, shown[k - 1], k);
            down == s && up.lines == s.lines && again[k - 1] == draft
  {
    var top := s.(pos := 0);
    assert Faithful(top, draft, 0);
    hide PrevTimes, NextTimes, Faithful;
    UpPastTop(s, draft, k);
    DownPastEnd(top, draft, k);
  }

  // ----- when the history is not retraced -----

  /** Once a line has a chat prefix, every line shown after it has one. */
  lemma PrefixStays(s: State, current: string)
    requires s.lines != [] && s.pos <= |s.lines| && HasPrefix(current)
    ensures HasPrefix(Prev(s, current).1) && HasPrefix(Next(s, current).1)
  {
  }

  lemma {:induction false} PrefixStaysUp(s: State, current: string, k: nat)
    requires s.lines != [] && s.pos <= |s.lines| && HasPrefix(current) && k > 0
    ensures HasPrefix(PrevTimes(s, current, k).1[k - 1])
    decreases k
  {
    PrefixStays(s, current);
    hide HasPrefix, Prev, Next;
    if k > 1 {
      PrefixStaysUp(Prev(s, current).0, Prev(s, current).1, k - 1);
    }
  }

  lemma {:induction false} PrefixStaysDown(s: State, current: string, k: nat)
    requires s.lines != [] && s.pos <= |s.lines| && HasPrefix(current) && k > 0
    ensures HasPrefix(NextTimes(s, current, k).1[k - 1])
    decreases k
  {
    PrefixStays(s, current);
    hide HasPrefix, Prev, Next;
    if k > 1 {
      PrefixStaysDown(Next(s, current).0, Next(s, current).1, k - 1);
    }
  }

  /** Without a draft, going up past a line that looks like chat leaves its prefix on whatever is shown. */
  lemma {:induction false} UpPicksUpPrefix(s: State, k: nat)
    requires Invariant(s) && k > 0
    requires forall i :: s.pos <= i < |s.lines| ==> !HasPrefix(s.lines[i])
    requires exists i :: 0 <= i && s.pos - k <= i < s.pos && HasPrefix(s.lines[i])
    ensures HasPrefix(PrevTimes(s, LineAt(s, ""), k).1[k - 1])
    decreases k
  {
    hide Prev, HasPrefix;
    PrevStep(s, "");
    var up := s.(pos := s.pos - 1);
    assert "" + s.lines[up.pos] == s.lines[up.pos];
    if k > 1 {
      if HasPrefix(s.lines[up.pos]) {
        PrefixStaysUp(up, s.lines[up.pos], k - 1);
      } else {
        UpPicksUpPrefix(up, k - 1);
      }
    }
  }

  /** At the end of the history only the prefix of the draft is shown. */
  lemma {:induction false} EndShowsPrefix(s: State, current: string, k: nat)
    requires s.lines != [] && s.pos <= |s.lines| && k > 0
    requires var down := NextTimes(s, current, k).0; down.pos == |down.lines|
    ensures var last := NextTimes(s, current, k).1[k - 1]; last == "" || (HasPrefix(last) && |last| == 2)
    decreases k
  {
    var (s1, line) := Next(s, current);
    if k > 1 {
      hide Next;
      EndShowsPrefix(s1, line, k - 1);
    }
  }

  lemma UnfaithfulFails(s: State, draft: string, k: nat)
    requires Invariant(s) && s.pos == |s.lines| && k > 0 && !Faithful(s, draft, Reached(s, k))
    ensures var (up, shown) := PrevTimes(s, draft, k);
            var (down, again) := NextTimes(up, shown[k - 1], k);
            !(down == s && again[k - 1] == draft)
  {
    hide Prev, Next, PrevTimes, NextTimes;
    var (up, shown) := PrevTimes(s, draft, k);
    var (down, again) := NextTimes(up, shown[k - 1], k);
    if draft == "" {
      UpPicksUpPrefix(s, k);
      PrefixStaysDown(up, shown[k - 1], k);
    } else if down == s {
      EndShowsPrefix(up, shown[k - 1], k);
    }
  }

  /**
   * k moves up and k moves down again lead back to the same history and the same draft exactly if the
   * draft has no text and no line passed would be read back differently; and then, as far as the history
   * goes, the lines on the way down are those on the way up in reverse.
   */
  lemma UpAndDown(s: State, draft: string, k: nat)
    requires Invariant(s) && s.pos == |s.lines| && k > 0
    ensures var (up, shown) := PrevTimes(s, draft, k);
            var (down, again) := NextTimes(up, shown[k - 1], k);
            && (down == s && again[k - 1] == draft <==> Faithful(s, draft, Reached(s, k)))
            && (Faithful(s, draft, Reached(s, k)) ==> up.lines == s.lines)
            && (Faithful(s, draft, Reached(s, k)) && k <= |s.lines| ==> Mirrors(draft, shown, again))
  {
    hide PrevTimes, NextTimes, Faithful;
    if !Faithful(s, draft, Reached(s, k)) {
      UnfaithfulFails(s, draft, k);
    } else if k <= |s.lines| {
      FaithfulRetraces(s, draft, k);
    } else {
      FarRetraces(s, draft, k);
    }
  }

  /**
   * A line that looks like chat gets into the history behind another prefix; it is not read back as stored, and
   * changes the history.
   */
  lemma ChatLikeLineIsSplit()
    ensures var s := AddRaw(EMPTY, Body("a:s:x")).0.(pos := 2);
            var (up, line) := Prev(s, "");
            && Invariant(s) && s == State(["", "s:x"], |s.lines|)
            && up.lines == s.lines && Next(up, line).0.lines == ["", "s:x", "x"]
  {
    assert Body("a:s:x") == "s:x" && Body("s:x") == "x";
    var (up, line) := Prev(State(["", "s:x"], 2), "");
    assert up == State(["", "s:x"], 1) && line == "s:x";
  }

  /** The queue after a new line: the line comes last, and a full queue loses its first one. */
  function Appended(lines: seq<string>, line: string): seq<string> {
    (if |lines| < MAX_LINES then lines else lines[1..]) + [line]
  }

  /** The text of this line was edited somewhere above the end. */
  predicate IsEdit(s: State, current: string)
    requires s.lines != []
  {
    s.pos < |s.lines| && Body(current) !in {"", s.lines[s.pos], s.lines[|s.lines| - 1]}
  }

  lemma EditAppends(s: State, line: string)
    requires Invariant(s) && line != "" && line != s.lines[|s.lines| - 1]
    ensures AddRaw(s, line) == (s.(lines := Appended(s.lines, line)), true)
    ensures |s.lines| <= |Appended(s.lines, line)| <= |s.lines| + 1
  {
  }

  /**
   * A line edited somewhere above the end is stored as a new one by either move. The cursor moves as if
   * nothing had been stored, except that a move down from the last line goes to the new end.
   */
  lemma EditIsStored(s: State, current: string)
    requires Invariant(s) && IsEdit(s, current)
    ensures var (n, lines) := (|s.lines|, Appended(s.lines, Body(current)));
            && Prev(s, current) ==
               (State(lines, if s.pos == 0 then 0 else s.pos - 1),
                Prefix(current) + if s.pos == 0 then "" else lines[s.pos - 1])
            && Next(s, current) ==
               (if s.pos == n - 1 then (State(lines, |lines|), Prefix(current))
                else (State(lines, s.pos + 1), Prefix(current) + lines[s.pos + 1]))
  {
    EditAppends(s, Body(current));
    hide AddRaw, Appended, Prefix, Body, Invariant;
    assert Prefix(current) + "" == Prefix(current);
  }

  /** A line that was not edited, or has no text, is not stored again. */
  lemma UneditedStays(s: State, current: string)
    requires Invariant(s)
    requires Body(current) == "" || Body(current) == s.lines[|s.lines| - 1]
             || (s.pos < |s.lines| && Body(current) == s.lines[s.pos])
    ensures Prev(s, current) ==
            (s.(pos := if s.pos == 0 then 0 else s.pos - 1),
             Prefix(current) + if s.pos == 0 then "" else s.lines[s.pos - 1])
    ensures Next(s, current) ==
            (s.(pos := if s.pos < |s.lines| then s.pos + 1 else s.pos),
             Prefix(current) + if s.pos + 1 < |s.lines| then s.lines[s.pos + 1] else "")
  {
    assert Prefix(current) + "" == Prefix(current);
  }

  /** What a line consists of: the prefix of a chat line is its letter and colon, and the rest is its text. */
  lemma PrefixAndBody(current: string)
    ensures Prefix(current) + Body(current) == current
    ensures Prefix(current) != "" <==> exists c, rest :: c in {"a:", "A:", "s:", "S:"} && current == c + rest
    ensures Prefix(current) in {"", "a:", "A:", "s:", "S:"}
  {
    if HasPrefix(current) {
      assert current == current[..2] + current[2..];
      assert current[..2] == [current[0], ':'];
    }
    if c, rest :| c in {"a:", "A:", "s:", "S:"} && current == c + rest {
      assert current[0] == c[0] && current[1] == c[1];
    }
  }

  /**
   * A new draft is stored first; the line shown is the former last one, unless the queue was full: then it is
   * the draft itself.
   */
  lemma DraftIsStored(s: State, current: string)
    requires Invariant(s) && s.pos == |s.lines|
    requires Body(current) != "" && Body(current) != s.lines[|s.lines| - 1]
    ensures var (s', line) := Prev(s, current);
            && s'.lines[|s'.lines| - 1] == Body(current)
            && s'.lines == (if |s.lines| < MAX_LINES then s.lines else s.lines[1..]) + [Body(current)]
            && s'.pos == |s.lines| - 1
            && line == Prefix(current) + (if |s.lines| < MAX_LINES then s.lines[|s.lines| - 1] else Body(current))
  {
  }

  class CConsoleHistory {
    var lines: seq<string>
    var pos: nat

    ghost function Abstract(): State
      reads this
    {
      State(lines, pos)
    }

    ghost predicate Valid()
      reads this
    {
      Invariant(Abstract())
    }

    constructor ()
      ensures Valid() && Abstract() == EMPTY
    {
      lines := [""];
      pos := 1;
    }

    method ResetPosition()
      requires Valid()
      modifies this
      ensures Valid() && lines == old(lines) && pos == |lines|
    {
      pos := |lines|;
    }

    method AddLineRaw(msg: string) returns (added: bool)
      requires Valid()
      modifies this
      ensures Valid() && (Abstract(), added) == AddRaw(old(Abstract()), msg)
    {
      AddRawKeeps(Abstract(), msg);
      if msg == "" {
        return false;
      }
      if lines[|lines| - 1] == msg {
        return false;
      }
      if |lines| >= MAX_LINES {
        if pos != 0 {
          lines := lines[1..];
        } else {
          lines := lines[1..];
          pos := 0;
        }
      }
      lines := lines + [msg];
      return true;
    }

    method AddLine(msg: string) returns (added: bool)
      requires Valid()
      modifies this
      ensures Valid() && (Abstract(), added) == AddRaw(old(Abstract()), Body(msg))
    {
      var message := msg;
      if HasPrefix(msg) {
        message := msg[2..];
      }
      added := AddLineRaw(message);
    }

    method NextLine(current: string) returns (r: string)
      requires Valid()
      modifies this
      ensures Valid() && (Abstract(), r) == Next(old(Abstract()), current)
    {
      MovesKeep(Abstract(), current);
      var prefix, message := Prefix(current), Body(current);
      if pos == |lines| {
        var added := AddLineRaw(message);
        pos := |lines|;
        return prefix;
      }
      if lines[pos] != message {
        if pos != |lines| - 1 {
          var added := AddLineRaw(message);
        } else {
          var added := AddLineRaw(message);
          if added {
            pos := |lines|;
            return prefix;
          }
        }
      }
      pos := pos + 1;
      if pos == |lines| {
        return prefix;
      }
      return prefix + lines[pos];
    }

    method PrevLine(current: string) returns (r: string)
      requires Valid()
      modifies this
      ensures Valid() && (Abstract(), r) == Prev(old(Abstract()), current)
    {
      MovesKeep(Abstract(), current);
      var prefix, message := Prefix(current), Body(current);
      if pos == 0 {
        if lines[pos] != message {
          var added := AddLineRaw(message);
          pos := 0;
        }
        return prefix;
      }
      if pos == |lines| || lines[pos] != message {
        var added := AddLineRaw(message);
        if pos == 0 {
          return prefix;
        }
      }
      pos := pos - 1;
      return prefix + lines[pos];
    }
  }
}
