/**
 * How AILibraryManager picks keys: the interface with the next higher version, and the
 * newest AI that matches a request.
 */
module LibraryKeys {
  import opened Strings
  import opened Versions
  import opened VersionOrder

  datatype InterfaceKey = InterfaceKey(shortName: string, version: string) {
    predicate IsUnspecified() { shortName == "" }

    /** The order of std::set<AIInterfaceKey>: raw string order, not version order. */
    predicate LessThan(other: InterfaceKey) {
      if shortName == other.shortName then Less(version, other.version) else Less(shortName, other.shortName)
    }
  }

  const NO_INTERFACE := InterfaceKey("", "")

  /** The iteration sequence of a std::set of keys. */
  ghost predicate IsSetOrder(keys: seq<InterfaceKey>) {
    forall i, j :: 0 <= i < j < |keys| ==> keys[i].LessThan(keys[j])
  }

  // ----- FindFittingInterfaceKey -----

  lemma SelfEqual(v: string)
    ensures Order(v, v) == 0
  {
    LexAntisymmetric(Split(v), Split(v));
  }

  lemma OrderTransitive(u: string, v: string, w: string)
    requires Order(u, v) <= 0 && Order(w, v) >= 0
    ensures Order(u, w) <= 0
  {
    LexAntisymmetric(Split(w), Split(v));
    LexTransitive(Split(u), Split(v), Split(w));
  }

  predicate Compares(k: InterfaceKey, shortName: string, minVersion: string, sign: int) {
    k.shortName == shortName && Order(k.version, minVersion) == sign
  }

  /** The first key in iteration order with that name and that comparison, or the number of keys. */
  function First(keys: seq<InterfaceKey>, shortName: string, minVersion: string, sign: int): (i: nat)
    ensures i <= |keys|
    ensures forall j :: 0 <= j < i ==> !Compares(keys[j], shortName, minVersion, sign)
    ensures i < |keys| ==> Compares(keys[i], shortName, minVersion, sign)
  {
    if keys == [] || Compares(keys[0], shortName, minVersion, sign) then 0
    else 1 + First(keys[1..], shortName, minVersion, sign)
  }

  /** An equal version if there is one, otherwise whichever newer version is iterated first. */
  function FirstFit(keys: seq<InterfaceKey>, shortName: string, minVersion: string): InterfaceKey {
    var equal, newer := First(keys, shortName, minVersion, 0), First(keys, shortName, minVersion, 1);
    if equal < |keys| then keys[equal] else if newer < |keys| then keys[newer] else NO_INTERFACE
  }

  /** What VersionCompare says about every key of that name; keys of other names are passed over like older ones. */
  function Signs(cmp: (string, string) -> int, keys: seq<InterfaceKey>, shortName: string,
      minVersion: string): (signs: seq<int>)
    ensures |signs| == |keys|
    ensures forall i :: 0 <= i < |keys| ==>
            signs[i] == if keys[i].shortName == shortName then Coded(cmp, keys[i].version, minVersion) else -1
  {
    seq(|keys|, i requires 0 <= i < |keys| =>
      if keys[i].shortName == shortName then Coded(cmp, keys[i].version, minVersion) else -1)
  }

  function FirstSign(signs: seq<int>, sign: int): (i: nat)
    ensures i <= |signs|
    ensures forall j :: 0 <= j < i ==> signs[j] != sign
    ensures i < |signs| ==> signs[i] == sign
  {
    if signs == [] || signs[0] == sign then 0 else 1 + FirstSign(signs[1..], sign)
  }

  /** The first key with sign zero, or else the first with sign one. */
  function Pick(keys: seq<InterfaceKey>, signs: seq<int>): InterfaceKey
    requires |signs| == |keys|
  {
    var equal, newer := FirstSign(signs, 0), FirstSign(signs, 1);
    if equal < |keys| then keys[equal] else if newer < |keys| then keys[newer] else NO_INTERFACE
  }

  /** What FindFittingInterfaceKey returns for any comparison function. */
  function Chosen(cmp: (string, string) -> int, keys: seq<InterfaceKey>, shortName: string,
      minVersion: string): InterfaceKey
  {
    Pick(keys, Signs(cmp, keys, shortName, minVersion))
  }

  /** No version has too many parts for VersionCompare, or even so many that it could overflow. */
  predicate Parts(keys: seq<InterfaceKey>, shortName: string, minVersion: string, most: nat) {
    && |Split(minVersion)| <= most
    && forall i :: 0 <= i < |keys| && keys[i].shortName == shortName ==> |Split(keys[i].version)| <= most
  }

  /**
   * VersionCompare gives the documented order on versions with as many parts as these; small comparisons do up
   * to fourteen.
   */
  ghost predicate Trusts(cmp: (string, string) -> int, keys: seq<InterfaceKey>, shortName: string, minVersion: string) {
    exists n :: OrdersUpTo(cmp, n) && Parts(keys, shortName, minVersion, n)
  }

  method FindFittingInterfaceKey(cmp: (string, string) -> int, shortName: string,
      minVersion: string, keys: seq<InterfaceKey>)
    returns (fittingKey: InterfaceKey)
    requires Parts(keys, shortName, minVersion, 15)
    ensures fittingKey == Chosen(cmp, keys, shortName, minVersion)
    ensures Trusts(cmp, keys, shortName, minVersion) ==> fittingKey == FirstFit(keys, shortName, minVersion)
  {
    hide Order, Coded, OrdersUpTo, Split, FirstFit;
    var minDiff := INT_MAX;
    fittingKey := NO_INTERFACE;
    ghost var signs := Signs(cmp, keys, shortName, minVersion);
    ghost var equal, newer := FirstSign(signs, 0), FirstSign(signs, 1);
    for k := 0 to |keys|
      invariant minDiff == if equal < k then 0 else if newer < k then 1 else INT_MAX
      invariant fittingKey == if equal < k then keys[equal] else if newer < k then keys[newer] else NO_INTERFACE
    {
      if shortName != keys[k].shortName {
        continue;
      }
      var diff := VersionCompare(cmp, keys[k].version, minVersion);
      if diff < 0 || diff >= minDiff {
        continue;
      }
      fittingKey := keys[k];
      minDiff := diff;
    }
    if Trusts(cmp, keys, shortName, minVersion) {
      var n :| OrdersUpTo(cmp, n) && Parts(keys, shortName, minVersion, n);
      PickIsFirstFit(cmp, keys, shortName, minVersion, n);
    }
  }

  lemma PickIsFirstFit(cmp: (string, string) -> int, keys: seq<InterfaceKey>,
      shortName: string, minVersion: string, n: nat)
    requires OrdersUpTo(cmp, n) && Parts(keys, shortName, minVersion, n)
    ensures Chosen(cmp, keys, shortName, minVersion) == FirstFit(keys, shortName, minVersion)
  {
    hide Order, Coded, Split;
    var signs := Signs(cmp, keys, shortName, minVersion);
    forall i | 0 <= i < |keys|
      ensures Compares(keys[i], shortName, minVersion, 0) <==> signs[i] == 0
      ensures Compares(keys[i], shortName, minVersion, 1) <==> signs[i] == 1
    {
      if keys[i].shortName == shortName {
        assert Coded(cmp, keys[i].version, minVersion) == Order(keys[i].version, minVersion);
      }
    }
  }

  predicate Fits(k: InterfaceKey, shortName: string, minVersion: string) {
    k.shortName == shortName && Order(k.version, minVersion) >= 0
  }

  /** The documented answer: nothing if nothing fits, otherwise a fitting key with the least version. */
  ghost predicate IsNextHigher(r: InterfaceKey, keys: seq<InterfaceKey>, shortName: string, minVersion: string) {
    if exists k :: k in keys && Fits(k, shortName, minVersion) then
      && r in keys
      && Fits(r, shortName, minVersion)
      && forall k :: k in keys && Fits(k, shortName, minVersion) ==> Order(r.version, k.version) <= 0
    else
      r == NO_INTERFACE
  }

  /** Going through the keys of one name, a version that steps back has been seen before. */
  ghost predicate StepsBackOnlyToSeen(keys: seq<InterfaceKey>, shortName: string) {
    forall i, j :: 0 <= i < j < |keys| && keys[i].shortName == shortName && keys[j].shortName == shortName
                   && Order(keys[i].version, keys[j].version) > 0
      ==> SeenBefore(keys, i, keys[j])
  }

  ghost predicate SeenBefore(keys: seq<InterfaceKey>, i: nat, k: InterfaceKey)
    requires i <= |keys|
  {
    exists h :: 0 <= h < i && keys[h].shortName == k.shortName && Order(keys[h].version, k.version) == 0
  }

  /** No key of that name has a version of more than n parts. */
  predicate KeysUpTo(keys: seq<InterfaceKey>, shortName: string, n: nat) {
    forall i :: 0 <= i < |keys| && keys[i].shortName == shortName ==> |Split(keys[i].version)| <= n
  }

  /**
   * Exactly when FindFittingInterfaceKey is right for every request with one part more than the keys, for
   * any comparison function that orders versions with that many parts. The code sees only the
   * signs -1, 0 and 1, so everything hangs on the iteration order of the set.
   */
  lemma NextHigherIff(cmp: (string, string) -> int, keys: seq<InterfaceKey>, shortName: string, n: nat)
    requires OrdersUpTo(cmp, n + 1) && KeysUpTo(keys, shortName, n)
    ensures StepsBackOnlyToSeen(keys, shortName)
       <==> forall minVersion {:trigger Chosen(cmp, keys, shortName, minVersion)} :: |Split(minVersion)| <= n + 1
              ==> IsNextHigher(Chosen(cmp, keys, shortName, minVersion), keys, shortName, minVersion)
  {
    hide OrdersUpTo, Chosen, Order;
    if StepsBackOnlyToSeen(keys, shortName) {
      forall minVersion | |Split(minVersion)| <= n + 1
        ensures IsNextHigher(Chosen(cmp, keys, shortName, minVersion), keys, shortName, minVersion)
      {
        ChosenIsNextHigher(cmp, keys, shortName, minVersion, n + 1);
      }
    } else {
      var i, j :| 0 <= i < j < |keys| && keys[i].shortName == shortName && keys[j].shortName == shortName
                  && Order(keys[i].version, keys[j].version) > 0 && !SeenBefore(keys, i, keys[j]);
      var minVersion := StepBackFails(keys, shortName, i, j, n);
      PickIsFirstFit(cmp, keys, shortName, minVersion, n + 1);
    }
  }

  lemma ChosenIsNextHigher(cmp: (string, string) -> int, keys: seq<InterfaceKey>,
      shortName: string, minVersion: string, n: nat)
    requires OrdersUpTo(cmp, n) && Parts(keys, shortName, minVersion, n) && StepsBackOnlyToSeen(keys, shortName)
    ensures IsNextHigher(Chosen(cmp, keys, shortName, minVersion), keys, shortName, minVersion)
  {
    PickIsFirstFit(cmp, keys, shortName, minVersion, n);
    FirstFitIsNextHigher(keys, shortName, minVersion);
  }

  lemma FirstFitIsNextHigher(keys: seq<InterfaceKey>, shortName: string, minVersion: string)
    requires StepsBackOnlyToSeen(keys, shortName)
    ensures IsNextHigher(FirstFit(keys, shortName, minVersion), keys, shortName, minVersion)
  {
    var equal, newer := First(keys, shortName, minVersion, 0), First(keys, shortName, minVersion, 1);
    forall j | 0 <= j < |keys| && Fits(keys[j], shortName, minVersion)
      ensures equal < |keys| || newer < |keys|
      ensures Order(FirstFit(keys, shortName, minVersion).version, keys[j].version) <= 0
    {
      var sign := Order(keys[j].version, minVersion);
      OrderIsSign(keys[j].version, minVersion);
      assert Compares(keys[j], shortName, minVersion, sign);
      if equal < |keys| {
        OrderTransitive(keys[equal].version, minVersion, keys[j].version);
      } else if Order(keys[newer].version, keys[j].version) > 0 {
        SelfEqual(keys[j].version);
        assert newer < j;
        assert SeenBefore(keys, newer, keys[j]);
        var h :| 0 <= h < newer && keys[h].shortName == shortName && Order(keys[h].version, keys[j].version) == 0;
        OrderEqual(keys[h].version, keys[j].version, minVersion);
        assert Compares(keys[h], shortName, minVersion, 1);
      }
    }
    if equal < |keys| { assert Fits(keys[equal], shortName, minVersion); }
    if newer < |keys| { assert Fits(keys[newer], shortName, minVersion); }
  }

  lemma OrderIsSign(v: string, w: string)
    ensures Order(v, w) in {-1, 0, 1}
  {
    LexIsSign(Split(v), Split(w));
  }

  lemma {:induction false} LexIsSign(p: seq<string>, q: seq<string>)
    ensures Lex(p, q) == -1 || Lex(p, q) == 0 || Lex(p, q) == 1
    decreases |p| + |q|
  {
    if p != [] || q != [] {
      LexIsSign(Tail(p), Tail(q));
    }
  }

  /** Equal versions compare alike with every third version. */
  lemma OrderEqual(u: string, v: string, w: string)
    requires Order(u, v) == 0
    ensures Order(u, w) == Order(v, w)
  {
    LexEqual(Split(u), Split(v), Split(w));
  }

  lemma {:induction false} LexEqual(p: seq<string>, q: seq<string>, r: seq<string>)
    requires Lex(p, q) == 0
    ensures Lex(p, r) == Lex(q, r)
    decreases |p| + |q| + |r|
  {
    if p != [] || q != [] || r != [] {
      Trichotomy(Head(p), Head(q));
      LexHead(p, q);
      LexHead(p, r);
      LexHead(q, r);
      LexEqual(Tail(p), Tail(q), Tail(r));
    }
  }

  /** A version just below keys[j]: below it, and above everything that keys[j] is above. */
  lemma StepBackFails(keys: seq<InterfaceKey>, shortName: string, i: nat, j: nat, n: nat) returns (minVersion: string)
    requires i < j < |keys| && keys[i].shortName == shortName && keys[j].shortName == shortName
    requires Order(keys[i].version, keys[j].version) > 0 && !SeenBefore(keys, i, keys[j]) &&
             KeysUpTo(keys, shortName, n)
    ensures |Split(minVersion)| == n + 1
    ensures !IsNextHigher(FirstFit(keys, shortName, minVersion), keys, shortName, minVersion)
  {
    hide Lex, Split, JustBelow, Join, First;
    var parts := JustBelow(Split(keys[j].version), n);
    minVersion := Join(parts);
    SplitJoin(parts);
    forall h | 0 <= h < |keys| && keys[h].shortName == shortName
      ensures Order(keys[h].version, minVersion) == if Order(keys[h].version, keys[j].version) >= 0 then 1 else -1
    {
      JustBelowSeparates(Split(keys[h].version), Split(keys[j].version), n);
    }
    var newer := First(keys, shortName, minVersion, 1);
    assert Compares(keys[i], shortName, minVersion, 1);
    assert newer <= i;
    assert Order(keys[newer].version, keys[j].version) >= 0;
    assert Order(keys[newer].version, keys[j].version) != 0;
    assert Fits(keys[j], shortName, minVersion) by { SelfEqual(keys[j].version); }
    assert First(keys, shortName, minVersion, 0) == |keys|;
    assert FirstFit(keys, shortName, minVersion) == keys[newer];
    assert keys[j] in keys;
  }

  /** The parts, padded with "0" to length n, and one more part that is less than "0". */
  function JustBelow(p: seq<string>, n: nat): (q: seq<string>)
    requires forall i :: 0 <= i < |p| ==> IsPart(p[i])
    ensures |q| == n + 1 && forall i :: 0 <= i < |q| ==> IsPart(q[i])
    decreases n
  {
    if n == 0 then ["!"] else [Head(p)] + JustBelow(Tail(p), n - 1)
  }

  lemma {:induction false} JustBelowSeparates(p: seq<string>, q: seq<string>, n: nat)
    requires |p| <= n && |q| <= n
    requires forall i :: 0 <= i < |q| ==> IsPart(q[i])
    ensures Lex(p, JustBelow(q, n)) == if Lex(p, q) >= 0 then 1 else -1
    decreases n
  {
    Trichotomy(Head(p), Head(q));
    LexHead(p, q);
    LexHead(p, JustBelow(q, n));
    if n > 0 {
      assert JustBelow(q, n)[1..] == JustBelow(Tail(q), n - 1);
      JustBelowSeparates(Tail(p), Tail(q), n - 1);
    } else {
      assert Less("!", "0") && !Less("0", "!");
    }
  }

  // ----- well-formed versions -----

  /** Parts made of characters not below '0', joined by single dots. */
  predicate WellFormed(v: string) {
    v == Join(Split(v)) && forall i :: 0 <= i < |Split(v)| ==> IsGoodPart(Split(v)[i])
  }

  predicate IsGoodPart(p: string) {
    p != "" && forall c :: c in p ==> c >= '0'
  }

  /** For well-formed versions, raw string order refines the version order. */
  lemma StringOrderRefines(v: string, w: string)
    requires WellFormed(v) && WellFormed(w) && Less(v, w)
    ensures Order(v, w) <= 0
  {
    JoinRefines(Split(v), Split(w));
  }

  lemma {:induction false} JoinRefines(p: seq<string>, q: seq<string>)
    requires forall i :: 0 <= i < |p| ==> IsGoodPart(p[i])
    requires forall i :: 0 <= i < |q| ==> IsGoodPart(q[i])
    requires Less(Join(p), Join(q))
    ensures Lex(p, q) <= 0
    decreases |p|, 1
  {
    if p == [] {
      ZeroIsLeast(q);
    } else if q != [] {
      LexHead(p, q);
      Trichotomy(p[0], q[0]);
      JoinIsFirstAndRest(p);
      JoinIsFirstAndRest(q);
      if p[0] != q[0] {
        FirstPartDecides(p[0], q[0], Rest(p), Rest(q));
      } else {
        CommonPrefix(p[0], Rest(p), Rest(q));
        RestRefines(p, q);
      }
    }
  }

  lemma {:induction false} RestRefines(p: seq<string>, q: seq<string>)
    requires p != [] && q != []
    requires forall i :: 0 <= i < |p| ==> IsGoodPart(p[i])
    requires forall i :: 0 <= i < |q| ==> IsGoodPart(q[i])
    requires Less(Rest(p), Rest(q))
    ensures Lex(p[1..], q[1..]) <= 0
    decreases |p|, 0
  {
    if |p| == 1 {
      ZeroIsLeast(q[1..]);
    } else if |q| > 1 {
      assert Rest(p)[1..] == Join(p[1..]) && Rest(q)[1..] == Join(q[1..]);
      JoinRefines(p[1..], q[1..]);
    }
  }

  lemma JoinIsFirstAndRest(p: seq<string>)
    requires p != []
    ensures Join(p) == p[0] + Rest(p)
  {
    if |p| == 1 {
      assert p[0] + "" == p[0];
    } else {
      assert p[0] + "." + Join(p[1..]) == p[0] + ("." + Join(p[1..]));
    }
  }

  /** What follows the first part in the joined string. */
  function Rest(p: seq<string>): string
    requires p != []
  {
    if |p| == 1 then "" else "." + Join(p[1..])
  }

  lemma {:induction false} ZeroIsLeast(q: seq<string>)
    requires forall i :: 0 <= i < |q| ==> IsGoodPart(q[i])
    ensures Lex([], q) <= 0
  {
    if q != [] {
      ZeroIsLeast(q[1..]);
      assert q[0][0] in q[0];
      assert "0"[1..] == "";
      assert !Less(q[0], "0");
    }
  }

  lemma {:induction false} FirstPartDecides(a: string, b: string, restA: string, restB: string)
    requires forall c :: c in a ==> c >= '0'
    requires forall c :: c in b ==> c >= '0'
    requires a != b
    requires restA == "" || restA[0] == '.'
    requires restB == "" || restB[0] == '.'
    ensures Less(a + restA, b + restB) == Less(a, b)
  {
    if a == "" {
      assert a + restA == restA;
      assert b[0] in b && (b + restB)[0] == b[0];
    } else if b == "" {
      assert b + restB == restB;
      assert a[0] in a && (a + restA)[0] == a[0];
    } else {
      assert (a + restA)[1..] == a[1..] + restA && (b + restB)[1..] == b[1..] + restB;
      if a[0] == b[0] {
        assert a == [a[0]] + a[1..] && b == [b[0]] + b[1..];
        assert forall c :: c in a[1..] ==> c in a;
        assert forall c :: c in b[1..] ==> c in b;
        FirstPartDecides(a[1..], b[1..], restA, restB);
      }
    }
  }

  /** With well-formed versions, in the order of the set, FindFittingInterfaceKey returns the next higher version. */
  lemma WellFormedNextHigher(cmp: (string, string) -> int, keys: seq<InterfaceKey>,
      shortName: string, minVersion: string, n: nat)
    requires OrdersUpTo(cmp, n) && Parts(keys, shortName, minVersion, n)
    requires IsSetOrder(keys)
    requires forall k :: k in keys && k.shortName == shortName ==> WellFormed(k.version)
    ensures IsNextHigher(Chosen(cmp, keys, shortName, minVersion), keys, shortName, minVersion)
  {
    forall i, j | 0 <= i < j < |keys| && keys[i].shortName == shortName && keys[j].shortName == shortName
      ensures Order(keys[i].version, keys[j].version) <= 0
    {
      assert keys[i].LessThan(keys[j]);
      StringOrderRefines(keys[i].version, keys[j].version);
    }
    ChosenIsNextHigher(cmp, keys, shortName, minVersion, n);
  }

  /** A '-' sorts before the dot: "1-a" is iterated, and chosen, before the lower version "1.0". */
  lemma DashIsChosenTooEarly(cmp: (string, string) -> int)
    requires OrdersUpTo(cmp, 2)
    ensures var keys := [InterfaceKey("C", "1-a"), InterfaceKey("C", "1.0")];
            IsSetOrder(keys) && !IsNextHigher(Chosen(cmp, keys, "C", "0"), keys, "C", "0")
  {
    hide Lex, First, OrdersUpTo, Chosen;
    var keys := [InterfaceKey("C", "1-a"), InterfaceKey("C", "1.0")];
    DashSplits();
    DashOrders();
    assert keys[1] in keys && Fits(keys[1], "C", "0");
    assert FirstFit(keys, "C", "0") == keys[0];
    PickIsFirstFit(cmp, keys, "C", "0", 2);
  }

  lemma DashSplits()
    ensures Split("1-a") == ["1-a"] && Split("1.0") == ["1", "0"] && Split("0") == ["0"]
    ensures Less("1-a", "1.0")
  {
    assert "1-a"[1..] == "-a" && "1.0"[1..] == ".0";
    assert ["1", "0"][1..] == ["0"];
    assert Join(["0"]) == "0" && Join(["1-a"]) == "1-a";
    assert Join(["1", "0"]) == "1.0";
    SplitJoin(["1", "0"]);
    SplitJoin(["1-a"]);
    SplitJoin(["0"]);
  }

  lemma DashOrders()
    ensures Lex(["1-a"], ["0"]) == 1 && Lex(["1", "0"], ["0"]) == 1 && Lex(["1-a"], ["1", "0"]) == 1
  {
    assert "1"[1..] == "" && "0"[1..] == "" && "1-a"[1..] == "-a";
    LexHead(["1-a"], ["1", "0"]);
    LexHead(["1-a"], ["0"]);
    LexHead(["1", "0"], ["0"]);
  }

  /** With byte differences as comparisons, 0.9 is taken to be higher than the requested 1.0. */
  lemma ByteDifferencesChooseTooOld(cmp: (string, string) -> int)
    requires IsCompare(cmp) && cmp("0", "1") == -1 && cmp("9", "0") == 9
    ensures var keys := [InterfaceKey("C", "0.9")];
            && IsSetOrder(keys) && StepsBackOnlyToSeen(keys, "C") && WellFormed("0.9")
            && Chosen(cmp, keys, "C", "1.0") == keys[0] && !IsNextHigher(keys[0], keys, "C", "1.0")
  {
    hide Split, Join, WellFormed, Lex;
    var keys := [InterfaceKey("C", "0.9")];
    PointNineIsWellFormed();
    ByteDifferencesMisorder(cmp);
    hide Order, Coded;
    assert Signs(cmp, keys, "C", "1.0") == [1];
    assert forall k :: k in keys ==> k == keys[0];
  }

  lemma PointNineIsWellFormed()
    ensures WellFormed("0.9")
  {
    assert ["0", "9"][1..] == ["9"] && Join(["9"]) == "9" && Join(["0", "9"]) == "0.9";
    SplitJoin(["0", "9"]);
  }

  // ----- ResolveSkirmishAIKey -----

  datatype SkirmishKey = SkirmishKey(shortName: string, version: string, interface: InterfaceKey) {
    predicate IsUnspecified() { shortName == "" }
  }

  const NO_AI := SkirmishKey("", "", NO_INTERFACE)

  predicate Matches(k: SkirmishKey, request: SkirmishKey) {
    && k.shortName == request.shortName
    && (request.version == "" || k.version == request.version)
  }

  /** The keys that match a request, in iteration order. */
  function Matching(keys: seq<SkirmishKey>, request: SkirmishKey): (r: seq<SkirmishKey>)
    ensures forall k :: k in r <==> k in keys && Matches(k, request)
  {
    if keys == [] then []
    else
      assert keys == [keys[0]] + keys[1..];
      (if Matches(keys[0], request) then [keys[0]] else []) + Matching(keys[1..], request)
  }

  lemma {:induction false} MatchingSnoc(keys: seq<SkirmishKey>, k: SkirmishKey, request: SkirmishKey)
    ensures Matching(keys + [k], request) == Matching(keys, request) + (if Matches(k, request) then [k] else [])
  {
    if keys == [] {
      assert keys + [k] == [k] && [k][1..] == [];
    } else {
      assert (keys + [k])[1..] == keys[1..] + [k];
      MatchingSnoc(keys[1..], k, request);
    }
  }

  method FittingSkirmishAIKeys(keys: seq<SkirmishKey>, request: SkirmishKey) returns (matchedKeys: seq<SkirmishKey>)
    ensures matchedKeys == if request.IsUnspecified() then [] else Matching(keys, request)
    ensures forall k :: k in matchedKeys <==>
              && k in keys
              && request.shortName != "" && k.shortName == request.shortName
              && (request.version == "" || k.version == request.version)
  {
    matchedKeys := [];
    if request.IsUnspecified() {
      return;
    }
    for i := 0 to |keys|
      invariant matchedKeys == Matching(keys[..i], request)
    {
      var aiKey := keys[i];
      MatchingSnoc(keys[..i], aiKey, request);
      assert keys[..i + 1] == keys[..i] + [aiKey];
      if request.shortName != aiKey.shortName {
        continue;
      }
      if request.version != "" && request.version != aiKey.version {
        continue;
      }
      matchedKeys := matchedKeys + [aiKey];
    }
    assert keys[..|keys|] == keys;
  }

  /**
   * VersionCompare gives the documented order on versions with as many parts as these; small comparisons do up
   * to fourteen.
   */
  ghost predicate Trusted(cmp: (string, string) -> int, keys: seq<SkirmishKey>) {
    exists n :: OrdersUpTo(cmp, n) && VersionsUpTo(keys, n)
  }

  predicate VersionsUpTo(keys: seq<SkirmishKey>, n: nat) {
    forall i :: 0 <= i < |keys| ==> |Split(keys[i].version)| <= n
  }

  /**
   * A matching key, one with the highest version if comparisons can be trusted; no key if and only if nothing
   * matches.
   */
  method ResolveSkirmishAIKey(cmp: (string, string) -> int, keys: seq<SkirmishKey>, request: SkirmishKey)
      returns (r: SkirmishKey)
    requires forall k :: k in keys ==> |Split(k.version)| <= 15
    ensures r.IsUnspecified() <==> request.IsUnspecified() || forall k :: k in keys ==> !Matches(k, request)
    ensures if r.IsUnspecified() then r == NO_AI else r in keys && Matches(r, request)
    ensures !r.IsUnspecified() ==> r == Matching(keys, request)[Best(cmp, Matching(keys, request))]
    ensures !r.IsUnspecified() && Trusted(cmp, keys) ==> IsNewestMatch(r, keys, request)
  {
    hide Order, Coded, OrdersUpTo, Split;
    var fittingKeys := FittingSkirmishAIKeys(keys, request);
    if fittingKeys == [] {
      return NO_AI;
    }
    var bestIndex := HighestVersion(cmp, fittingKeys);
    assert fittingKeys[bestIndex] in fittingKeys;
    r := fittingKeys[bestIndex];
    if Trusted(cmp, keys) {
      var n :| OrdersUpTo(cmp, n) && VersionsUpTo(keys, n);
      forall i | 0 <= i < |fittingKeys|
        ensures |Split(fittingKeys[i].version)| <= n
      {
        assert fittingKeys[i] in keys;
      }
      BestIsNewest(cmp, fittingKeys, n);
    }
  }

  ghost predicate IsNewestMatch(r: SkirmishKey, keys: seq<SkirmishKey>, request: SkirmishKey) {
    && r in keys
    && Matches(r, request)
    && forall k :: k in keys && Matches(k, request) ==> Order(k.version, r.version) <= 0
  }

  /** The index that is left after each key in turn has challenged the best one so far. */
  function Best(cmp: (string, string) -> int, keys: seq<SkirmishKey>): (best: nat)
    ensures keys != [] ==> best < |keys|
  {
    if |keys| <= 1 then 0
    else
      var last := |keys| - 1;
      var best := Best(cmp, keys[..last]);
      if Coded(cmp, keys[last].version, keys[best].version) <= 0 then best else last
  }

  /** The loop of ResolveSkirmishAIKey. */
  method HighestVersion(cmp: (string, string) -> int, fittingKeys: seq<SkirmishKey>) returns (bestIndex: nat)
    requires fittingKeys != [] && forall k :: k in fittingKeys ==> |Split(k.version)| <= 15
    ensures bestIndex == Best(cmp, fittingKeys)
  {
    hide Order, Coded, Split;
    bestIndex := 0;
    for k := 1 to |fittingKeys|
      invariant 0 <= bestIndex < k
      invariant bestIndex == Best(cmp, fittingKeys[..k])
    {
      assert fittingKeys[k] in fittingKeys && fittingKeys[bestIndex] in fittingKeys;
      assert fittingKeys[..k + 1][..k] == fittingKeys[..k];
      var diff := VersionCompare(cmp, fittingKeys[k].version, fittingKeys[bestIndex].version);
      if diff <= 0 {
        continue;
      }
      bestIndex := k;
    }
    assert fittingKeys[..|fittingKeys|] == fittingKeys;
  }

  lemma {:induction false} BestIsNewest(cmp: (string, string) -> int, keys: seq<SkirmishKey>, n: nat)
    requires keys != [] && OrdersUpTo(cmp, n) && VersionsUpTo(keys, n)
    ensures forall k :: k in keys ==> Order(k.version, keys[Best(cmp, keys)].version) <= 0
    ensures forall i :: 0 <= i < Best(cmp, keys) ==> Order(keys[i].version, keys[Best(cmp, keys)].version) < 0
    decreases |keys|
  {
    hide Order, Coded, Split;
    if |keys| == 1 {
      SelfEqual(keys[0].version);
    } else {
      var last := |keys| - 1;
      var front := keys[..last];
      assert keys == front + [keys[last]];
      BestIsNewest(cmp, front, n);
      var best := Best(cmp, front);
      assert front[best] == keys[best];
      assert Coded(cmp, keys[last].version, keys[best].version) == Order(keys[last].version, keys[best].version);
      if Order(keys[last].version, keys[best].version) > 0 {
        NewerReplaces(keys, last, best);
      }
    }
  }

  /** None of the first k keys is newer than the best one. */
  ghost predicate IsNewestBefore(keys: seq<SkirmishKey>, k: nat, best: nat)
    requires k <= |keys| && best < |keys|
  {
    forall i :: 0 <= i < k ==> Order(keys[i].version, keys[best].version) <= 0
  }

  lemma NewerReplaces(keys: seq<SkirmishKey>, k: nat, best: nat)
    requires k < |keys| && best < k && IsNewestBefore(keys, k, best)
    requires Order(keys[k].version, keys[best].version) > 0
    ensures IsNewestBefore(keys, k + 1, k)
    ensures forall i :: 0 <= i < k ==> Order(keys[i].version, keys[k].version) < 0
  {
    SelfEqual(keys[k].version);
    forall i | 0 <= i < k
      ensures Order(keys[i].version, keys[k].version) < 0
    {
      OrderStrict(keys[i].version, keys[best].version, keys[k].version);
    }
  }

  lemma OrderStrict(u: string, v: string, w: string)
    requires Order(u, v) <= 0 && Order(w, v) > 0
    ensures Order(u, w) < 0
  {
    LexAntisymmetric(Split(w), Split(v));
    LexTransitive(Split(u), Split(v), Split(w));
  }
}
