/** The table of console commands: sorted once after registration, then searched by bisection. */
module Console {
  import opened Options
  import Strings

  datatype Pair = Pair(name: string, receiver: int)

  predicate Sorted(s: seq<Pair>) {
    forall i, j :: 0 <= i < j < |s| ==> !Strings.Less(s[j].name, s[i].name)
  }

  predicate StrictlySorted(s: seq<Pair>) {
    forall i, j :: 0 <= i < j < |s| ==> Strings.Less(s[i].name, s[j].name)
  }

  /** A linear search. */
  predicate Registered(s: seq<Pair>, name: string) {
    exists i :: 0 <= i < |s| && s[i].name == name
  }

  /** The first of every run of equal names, as std::unique keeps it. */
  function Unique(s: seq<Pair>): (r: seq<Pair>)
    ensures s != [] ==> r != [] && r[|r| - 1].name == s[|s| - 1].name
    ensures forall p :: p in r ==> p in s
  {
    if |s| <= 1 then s
    else
      var r := Unique(s[..|s| - 1]);
      if r[|r| - 1].name == s[|s| - 1].name then r else r + [s[|s| - 1]]
  }

  lemma {:induction false} UniqueIsStrict(s: seq<Pair>)
    requires Sorted(s)
    ensures StrictlySorted(Unique(s))
    decreases |s|
  {
    if |s| > 1 {
      var front, last := s[..|s| - 1], s[|s| - 1];
      UniqueIsStrict(front);
      var r := Unique(front);
      var top := r[|r| - 1].name;
      if top != last.name {
        assert front[|front| - 1].name == top;
        Strings.Trichotomy(top, last.name);
        forall i | 0 <= i < |r|
          ensures Strings.Less(r[i].name, last.name)
        {
          if i < |r| - 1 {
            Strings.Transitivity(r[i].name, top, last.name);
          }
        }
      }
    }
  }

  lemma {:induction false} UniqueKeepsNames(s: seq<Pair>, name: string)
    ensures Registered(Unique(s), name) <==> Registered(s, name)
    decreases |s|
  {
    if |s| > 1 {
      var front, last := s[..|s| - 1], s[|s| - 1];
      UniqueKeepsNames(front, name);
      var r := Unique(front);
      assert s == front + [last];
      assert r[|r| - 1] in r;
      RegisteredSnoc(front, last, name);
      RegisteredSnoc(r, last, name);
      if r[|r| - 1].name == last.name == name {
        assert Registered(r, name);
      }
    }
  }

  /** Of several entries with one name the first stays. */
  lemma {:induction false} UniqueKeepsFirst(s: seq<Pair>, i: nat)
    requires i < |s| && forall j :: 0 <= j < i ==> s[j].name != s[i].name
    ensures s[i] in Unique(s)
    decreases |s|
  {
    if |s| > 1 {
      var front := s[..|s| - 1];
      if i < |front| {
        UniqueKeepsFirst(front, i);
      } else {
        assert front[|front| - 1] == s[|s| - 2];
      }
    }
  }

  lemma RegisteredSnoc(s: seq<Pair>, p: Pair, name: string)
    ensures Registered(s + [p], name) <==> Registered(s, name) || p.name == name
  {
    var t := s + [p];
    if p.name == name {
      assert t[|s|].name == name;
    }
    if i :| 0 <= i < |s| && s[i].name == name {
      assert t[i].name == name;
    }
  }

  lemma PermutedNames(s: seq<Pair>, t: seq<Pair>, name: string)
    requires multiset(s) == multiset(t)
    ensures Registered(s, name) ==> Registered(t, name)
  {
    if i :| 0 <= i < |s| && s[i].name == name {
      assert s[i] in multiset(t);
      assert s[i] in t;
    }
  }

  /** Bisection as std::lower_bound does it, on whatever is there. */
  function LowerBound(s: seq<Pair>, first: nat, len: nat, name: string): (r: nat)
    requires first + len <= |s|
    ensures first <= r <= first + len
    decreases len
  {
    if len == 0 then first
    else
      var half := len / 2;
      if Strings.Less(s[first + half].name, name) then LowerBound(s, first + half + 1, len - half - 1, name)
      else LowerBound(s, first, half, name)
  }

  /** On a sorted table: everything before is smaller, nothing from there on is. */
  lemma {:induction false} LowerBoundSplits(s: seq<Pair>, first: nat, len: nat, name: string)
    requires first + len <= |s| && StrictlySorted(s)
    requires forall i :: 0 <= i < first ==> Strings.Less(s[i].name, name)
    requires forall i :: first + len <= i < |s| ==> !Strings.Less(s[i].name, name)
    ensures forall i :: 0 <= i < LowerBound(s, first, len, name) ==> Strings.Less(s[i].name, name)
    ensures forall i :: LowerBound(s, first, len, name) <= i < |s| ==> !Strings.Less(s[i].name, name)
    decreases len
  {
    if len > 0 {
      var mid := first + len / 2;
      if Strings.Less(s[mid].name, name) {
        forall i | 0 <= i < mid
          ensures Strings.Less(s[i].name, name)
        {
          Strings.Transitivity(s[i].name, s[mid].name, name);
        }
        LowerBoundSplits(s, mid + 1, len - len / 2 - 1, name);
      } else {
        forall i | mid < i < |s|
          ensures !Strings.Less(s[i].name, name)
        {
          if Strings.Less(s[i].name, name) {
            Strings.Transitivity(s[mid].name, s[i].name, name);
          }
        }
        LowerBoundSplits(s, first, len / 2, name);
      }
    }
  }

  /** The receiver that an action goes to, if any. */
  function Lookup(s: seq<Pair>, name: string): Option<int> {
    var i := LowerBound(s, 0, |s|, name);
    if i == |s| || s[i].name != name then None else Some(s[i].receiver)
  }

  lemma FirstNotLess(s: seq<Pair>, k: nat, i: nat)
    requires StrictlySorted(s) && k <= i < |s| && !Strings.Less(s[k].name, s[i].name)
    ensures k == i
  {
  }

  /** On a sorted table bisection finds exactly what a linear search finds. */
  lemma LookupIsLinearSearch(s: seq<Pair>, name: string)
    requires StrictlySorted(s)
    ensures Lookup(s, name).Some? <==> Registered(s, name)
    ensures forall r :: Lookup(s, name) == Some(r) <==> Pair(name, r) in s
  {
    LowerBoundSplits(s, 0, |s|, name);
    var k := LowerBound(s, 0, |s|, name);
    forall i | 0 <= i < |s| && s[i].name == name
      ensures i == k
    {
      Strings.Trichotomy(name, name);
      FirstNotLess(s, k, i);
    }
    forall r
      ensures Lookup(s, name) == Some(r) <==> Pair(name, r) in s
    {
      if i :| 0 <= i < |s| && s[i] == Pair(name, r) {
        assert i == k;
      }
    }
  }

  /** One step of bisection goes to the right of the middle or not. */
  lemma OneStep(s: seq<Pair>, first: nat, len: nat, half: nat, name: string)
    requires first + len <= |s| && len > 0 && half == len / 2
    ensures half < len
    ensures LowerBound(s, first, len, name)
            == if Strings.Less(s[first + half].name, name) then LowerBound(s, first + half + 1, len - half - 1, name)
               else LowerBound(s, first, half, name)
  {
  }

  /** Wherever bisection ends, it has seen that what stands just before is smaller. */
  lemma {:induction false} BeforeBound(s: seq<Pair>, first: nat, len: nat, name: string)
    requires first + len <= |s|
    ensures var r := LowerBound(s, first, len, name); first < r ==> Strings.Less(s[r - 1].name, name)
    decreases len
  {
    hide LowerBound, Strings.Less;
    if len > 0 {
      var half := len / 2;
      OneStep(s, first, len, half, name);
      if Strings.Less(s[first + half].name, name) {
        BeforeBound(s, first + half + 1, len - half - 1, name);
      } else {
        BeforeBound(s, first, half, name);
      }
    }
  }

  predicate SortedRange(s: seq<Pair>, lo: nat, hi: nat)
    requires hi <= |s|
  {
    forall i, j :: lo <= i < j < hi ==> Strings.Less(s[i].name, s[j].name)
  }

  /** Bisection of a range finds every entry of it at its own place. */
  predicate FindsItself(s: seq<Pair>, first: nat, len: nat)
    requires first + len <= |s|
  {
    forall i :: first <= i < first + len ==> LowerBound(s, first, len, s[i].name) == i
  }

  /** Then so does bisection of the two halves, and the middle separates them. */
  lemma HalvesFindThemselves(s: seq<Pair>, first: nat, len: nat, half: nat)
    requires first + len <= |s| && len > 0 && half == len / 2 && FindsItself(s, first, len)
    ensures half < len && FindsItself(s, first, half) && FindsItself(s, first + half + 1, len - half - 1)
    ensures LowerBound(s, first, half, s[first + half].name) == first + half
    ensures forall i :: first + half < i < first + len ==> Strings.Less(s[first + half].name, s[i].name)
  {
    hide LowerBound, Strings.Less;
    forall i | first <= i < first + len
      ensures i <= first + half ==> LowerBound(s, first, half, s[i].name) == i
      ensures i > first + half ==> Strings.Less(s[first + half].name, s[i].name)
      ensures i > first + half ==> LowerBound(s, first + half + 1, len - half - 1, s[i].name) == i
    {
      OneStep(s, first, len, half, s[i].name);
    }
  }

  lemma {:induction false} FoundIsSorted(s: seq<Pair>, first: nat, len: nat)
    requires first + len <= |s| && FindsItself(s, first, len)
    ensures SortedRange(s, first, first + len)
    decreases len
  {
    hide LowerBound, Strings.Less, FindsItself, SortedRange;
    if len == 0 {
      EmptyRange(s, first);
    } else {
      var half := len / 2;
      HalvesFindThemselves(s, first, len, half);
      FoundIsSorted(s, first, half);
      FoundIsSorted(s, first + half + 1, len - half - 1);
      BeforeBound(s, first, half, s[first + half].name);
      JoinRanges(s, first, first + half, first + len);
    }
  }

  lemma EmptyRange(s: seq<Pair>, lo: nat)
    requires lo <= |s|
    ensures SortedRange(s, lo, lo)
  {
  }

  lemma JoinRanges(s: seq<Pair>, lo: nat, mid: nat, hi: nat)
    requires lo <= mid < hi <= |s| && SortedRange(s, lo, mid) && SortedRange(s, mid + 1, hi)
    requires lo < mid ==> Strings.Less(s[mid - 1].name, s[mid].name)
    requires forall i :: mid < i < hi ==> Strings.Less(s[mid].name, s[i].name)
    ensures SortedRange(s, lo, hi)
  {
    hide Strings.Less;
    forall i | lo <= i < mid
      ensures Strings.Less(s[i].name, s[mid].name)
    {
      if i < mid - 1 {
        Strings.Transitivity(s[i].name, s[mid - 1].name, s[mid].name);
      }
    }
    forall i, j | lo <= i < mid < j < hi
      ensures Strings.Less(s[i].name, s[j].name)
    {
      Strings.Transitivity(s[i].name, s[mid].name, s[j].name);
    }
  }

  predicate AllFound(s: seq<Pair>) {
    forall i :: 0 <= i < |s| ==> Lookup(s, s[i].name).Some?
  }

  predicate DistinctNames(s: seq<Pair>) {
    forall i, j :: 0 <= i < j < |s| ==> s[i].name != s[j].name
  }

  /** In a table without repeated names every command can be reached exactly if the table is sorted. */
  lemma AllFoundIffSorted(s: seq<Pair>)
    requires DistinctNames(s)
    ensures AllFound(s) <==> StrictlySorted(s)
  {
    if AllFound(s) {
      forall i | 0 <= i < |s|
        ensures LowerBound(s, 0, |s|, s[i].name) == i
      {
        assert Lookup(s, s[i].name).Some?;
      }
      FoundIsSorted(s, 0, |s|);
    }
    if StrictlySorted(s) {
      forall i | 0 <= i < |s|
        ensures Lookup(s, s[i].name).Some?
      {
        LookupIsLinearSearch(s, s[i].name);
      }
    }
  }

  predicate ComesLast(s: seq<Pair>, late: Pair) {
    s == [] || Strings.Less(s[|s| - 1].name, late.name)
  }

  lemma LateIsSorted(s: seq<Pair>, late: Pair)
    requires StrictlySorted(s) && ComesLast(s, late)
    ensures StrictlySorted(s + [late])
  {
    JoinRanges(s + [late], 0, |s|, |s| + 1);
  }

  lemma LateIsDistinct(s: seq<Pair>, late: Pair)
    requires StrictlySorted(s) && !Registered(s, late.name)
    ensures DistinctNames(s + [late])
  {
    hide Strings.Less;
    forall i, j | 0 <= i < j < |s|
      ensures s[i].name != s[j].name
    {
      Strings.Trichotomy(s[i].name, s[j].name);
    }
  }

  lemma LateIsFound(s: seq<Pair>, late: Pair)
    requires !Registered(s, late.name) && Lookup(s + [late], late.name).Some?
    ensures ComesLast(s, late)
  {
    hide LowerBound, Strings.Less;
    BeforeBound(s + [late], 0, |s| + 1, late.name);
  }

  /**
   * A new command registered after sorting is reached before the next sorting exactly if its name comes
   * after all the others; and otherwise the table as a whole has a command that is not reached.
   */
  lemma LateCommandIff(s: seq<Pair>, late: Pair)
    requires StrictlySorted(s) && !Registered(s, late.name)
    ensures Lookup(s + [late], late.name).Some? <==> ComesLast(s, late)
    ensures AllFound(s + [late]) <==> ComesLast(s, late)
  {
    hide StrictlySorted, Lookup, Registered, DistinctNames, ComesLast;
    var t := s + [late];
    LateIsDistinct(s, late);
    AllFoundIffSorted(t);
    assert t[|s|] == late;
    if ComesLast(s, late) {
      LateIsSorted(s, late);
    }
    if Lookup(t, late.name).Some? {
      LateIsFound(s, late);
    }
  }

  /** So a command registered late can be missed, and hide another one that was found before. */
  lemma LateCommandIsMissed()
    ensures var s := [Pair("b", 0)];
            && StrictlySorted(s) && Lookup(s, "b") == Some(0)
            && Lookup(s + [Pair("a", 1)], "a") == None && Lookup(s + [Pair("a", 1)], "b") == None
  {
    var s, t := [Pair("b", 0)], [Pair("b", 0)] + [Pair("a", 1)];
    assert t[1].name == "a" && t[0].name == "b";
    assert !Strings.Less("a", "a") && !Strings.Less("b", "a") && Strings.Less("a", "b") && !Strings.Less("b", "b");
    assert LowerBound(s, 0, 0, "b") == 0 && LowerBound(s, 0, 1, "b") == 0;
    assert LowerBound(t, 0, 1, "a") == 0 && LowerBound(t, 0, 2, "a") == 0;
    assert LowerBound(t, 2, 0, "b") == 2 && LowerBound(t, 0, 2, "b") == 2;
  }

  class CommandConsole {
    var commandMap: seq<Pair>

    constructor ()
      ensures commandMap == []
    {
      commandMap := [];
    }

    method AddCommandReceiver(name: string, receiver: int)
      modifies this
      ensures commandMap == old(commandMap) + [Pair(name, receiver)]
    {
      commandMap := commandMap + [Pair(name, receiver)];
    }

    /** Sorts and removes duplicate names; sorted is what std::sort makes of the table. */
    method SortCommandMap(sorted: seq<Pair>)
      requires multiset(sorted) == multiset(commandMap) && Sorted(sorted)
      modifies this
      ensures commandMap == Unique(sorted)
      ensures StrictlySorted(commandMap)
      ensures forall p :: p in commandMap ==> p in old(commandMap)
      ensures forall name :: Registered(commandMap, name) <==> Registered(old(commandMap), name)
    {
      ghost var before := commandMap;
      commandMap := sorted;
      if |commandMap| > 0 {
        var kept := commandMap[..1];
        for i := 1 to |commandMap|
          invariant commandMap == sorted && kept == Unique(sorted[..i])
        {
          assert sorted[..i + 1][..i] == sorted[..i];
          if kept[|kept| - 1].name != commandMap[i].name {
            kept := kept + [commandMap[i]];
          }
        }
        assert sorted[..|sorted|] == sorted;
        commandMap := kept;
      }
      UniqueIsStrict(sorted);
      forall name
        ensures Registered(commandMap, name) <==> Registered(before, name)
      {
        UniqueKeepsNames(sorted, name);
        PermutedNames(sorted, before, name);
        PermutedNames(before, sorted, name);
      }
      forall p | p in commandMap
        ensures p in before
      {
        assert p in multiset(before);
      }
    }

    /** Whether the action was handled, and which receiver got it. */
    method ExecuteAction(command: string) returns (handled: bool, receiver: Option<int>)
      ensures command == "commands" ==> handled && receiver == None
      ensures command != "commands" ==> receiver == Lookup(commandMap, command) && handled == receiver.Some?
      ensures command != "commands" && StrictlySorted(commandMap) ==> (handled <==> Registered(commandMap, command))
    {
      if command == "commands" {
        return true, None;
      }
      var first, len := 0, |commandMap|;
      while len > 0
        invariant 0 <= first && 0 <= len && first + len <= |commandMap|
        invariant LowerBound(commandMap, first, len, command) == LowerBound(commandMap, 0, |commandMap|, command)
        decreases len
      {
        var half := len / 2;
        if Strings.Less(commandMap[first + half].name, command) {
          first, len := first + half + 1, len - half - 1;
        } else {
          len := half;
        }
      }
      if StrictlySorted(commandMap) {
        LookupIsLinearSearch(commandMap, command);
      }
      if first == |commandMap| || commandMap[first].name != command {
        return false, None;
      }
      return true, Some(commandMap[first].receiver);
    }
  }

  /** Any series of registrations. */
  function RegisterAll(s: seq<Pair>, regs: seq<Pair>): seq<Pair>
    decreases |regs|
  {
    if regs == [] then s else RegisterAll(s + [regs[0]], regs[1..])
  }

  lemma {:induction false} RegisterAllAppends(s: seq<Pair>, regs: seq<Pair>)
    ensures RegisterAll(s, regs) == s + regs
    decreases |regs|
  {
    if regs != [] {
      RegisterAllAppends(s + [regs[0]], regs[1..]);
      assert [regs[0]] + regs[1..] == regs;
    }
  }

  /**
   * After any registrations and sorting: a name is found exactly if it was registered, and goes to one of its
   * receivers.
   */
  lemma SortedTableFindsAll(s: seq<Pair>, regs: seq<Pair>, sorted: seq<Pair>, name: string)
    requires multiset(sorted) == multiset(RegisterAll(s, regs)) && Sorted(sorted)
    ensures StrictlySorted(Unique(sorted))
    ensures Lookup(Unique(sorted), name).Some? <==> Registered(s + regs, name)
    ensures Lookup(Unique(sorted), name).Some? ==> Pair(name, Lookup(Unique(sorted), name).value) in s + regs
  {
    RegisterAllAppends(s, regs);
    UniqueIsStrict(sorted);
    UniqueKeepsNames(sorted, name);
    PermutedNames(sorted, s + regs, name);
    PermutedNames(s + regs, sorted, name);
    LookupIsLinearSearch(Unique(sorted), name);
    if Lookup(Unique(sorted), name).Some? {
      var p := Pair(name, Lookup(Unique(sorted), name).value);
      assert p in sorted;
      assert p in multiset(s + regs);
    }
  }
}
