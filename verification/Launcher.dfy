/**
 * The launcher's messages: which versions they are for, which of them are shown, what the choices
 * of the user do to the set of seen ids, and when the launcher refuses to go on.
 */
module Launcher {
  import opened Options
  import Strings
  import Versions
  import opened SeenFile

  // ----- versions -----

  const MAX_INT := 0x8000_0000_0000_0000

  predicate AllDigits(s: string) {
    s != "" && forall i :: 0 <= i < |s| ==> '0' <= s[i] <= '9'
  }

  function Decimal(s: string): nat
    requires forall i :: 0 <= i < |s| ==> '0' <= s[i] <= '9'
  {
    if s == "" then 0 else Decimal(s[..|s| - 1]) * 10 + (s[|s| - 1] as int - '0' as int)
  }

  /** A part that is not a 64-bit number counts as zero. */
  function Component(s: string): int {
    var digits := if s != "" && s[0] in {'+', '-'} then s[1..] else s;
    if !AllDigits(digits) then 0
    else
      var n: int := Decimal(digits);
      var x := if s[0] == '-' then -n else n;
      if -MAX_INT <= x < MAX_INT then x else 0
  }

  function Digit(n: nat): char
    requires n < 10
  {
    '0' + n as char
  }

  /** A number in decimal digits. */
  function Printed(n: nat): (s: string)
    ensures AllDigits(s)
  {
    if n < 10 then [Digit(n)] else Printed(n / 10) + [Digit(n % 10)]
  }

  lemma {:induction false} DecimalOfPrinted(n: nat)
    ensures Decimal(Printed(n)) == n
  {
    if n < 10 {
      assert [Digit(n)][..0] == "";
    } else {
      DecimalOfPrinted(n / 10);
      assert Printed(n)[..|Printed(n)| - 1] == Printed(n / 10);
    }
  }

  /** A part is read as the number that it prints, with or without a sign, if that fits into 64 bits. */
  lemma ComponentReads(n: nat, s: string)
    ensures Component(Printed(n)) == if n < MAX_INT then n else 0
    ensures Component("+" + Printed(n)) == if n < MAX_INT then n else 0
    ensures Component("-" + Printed(n)) == if n <= MAX_INT then 0 - n else 0
    ensures !AllDigits(s) && (s == "" || s[0] !in {'+', '-'}) ==> Component(s) == 0
  {
    DecimalOfPrinted(n);
    var p := Printed(n);
    assert p[0] !in {'+', '-'};
    assert ("+" + p)[1..] == p && ("-" + p)[1..] == p;
  }

  function Numbers(v: string): seq<int> {
    var parts := Versions.Split(v);
    seq(|parts|, i requires 0 <= i < |parts| => Component(parts[i]))
  }

  /** Versions go on with zeros. */
  function At(p: seq<int>, i: nat): int {
    if i < |p| then p[i] else 0
  }

  function Max(a: nat, b: nat): nat {
    if a < b then b else a
  }

  function CompareFrom(p: seq<int>, q: seq<int>, i: nat): int
    decreases Max(|p|, |q|) - i
  {
    if i >= Max(|p|, |q|) then 0
    else if At(p, i) != At(q, i) then (if At(p, i) < At(q, i) then -1 else 1)
    else CompareFrom(p, q, i + 1)
  }

  function Compare(a: string, b: string): int {
    CompareFrom(Numbers(a), Numbers(b), 0)
  }

  method Vcmp(a: string, b: string) returns (r: int)
    ensures r == Compare(a, b)
  {
    var pa, pb := Numbers(a), Numbers(b);
    for i := 0 to Max(|pa|, |pb|)
      invariant CompareFrom(pa, pb, i) == Compare(a, b)
    {
      var x := if i < |pa| then pa[i] else 0;
      var y := if i < |pb| then pb[i] else 0;
      if x != y {
        return if x < y then -1 else 1;
      }
    }
    return 0;
  }

  ghost predicate FirstDifference(p: seq<int>, q: seq<int>, i: nat) {
    At(p, i) != At(q, i) && forall j: nat :: j < i ==> At(p, j) == At(q, j)
  }

  /** The first part that differs decides; versions that never differ are equal, like 0.2 and 0.2.0. */
  lemma {:induction false} FirstDifferenceDecides(p: seq<int>, q: seq<int>, i: nat)
    requires FirstDifference(p, q, i)
    ensures CompareFrom(p, q, 0) == if At(p, i) < At(q, i) then -1 else 1
  {
    var k := i;
    while k > 0
      invariant 0 <= k <= i
      invariant CompareFrom(p, q, k) == if At(p, i) < At(q, i) then -1 else 1
    {
      k := k - 1;
    }
  }

  lemma NoDifferenceIsEqual(p: seq<int>, q: seq<int>)
    ensures CompareFrom(p, q, 0) == 0 <==> forall i: nat :: At(p, i) == At(q, i)
  {
    if i: nat :| At(p, i) != At(q, i) {
      var k := Least(p, q, i);
      FirstDifferenceDecides(p, q, k);
    } else {
      AllEqualFrom(p, q, 0);
    }
  }

  lemma {:induction false} Least(p: seq<int>, q: seq<int>, i: nat) returns (k: nat)
    requires At(p, i) != At(q, i)
    ensures FirstDifference(p, q, k)
  {
    k := 0;
    while At(p, k) == At(q, k)
      invariant k <= i && forall j: nat :: j < k ==> At(p, j) == At(q, j)
      decreases i - k
    {
      k := k + 1;
    }
  }

  lemma {:induction false} AllEqualFrom(p: seq<int>, q: seq<int>, i: nat)
    requires forall j: nat :: At(p, j) == At(q, j)
    ensures CompareFrom(p, q, i) == 0
    decreases Max(|p|, |q|) - i
  {
    if i < Max(|p|, |q|) {
      AllEqualFrom(p, q, i + 1);
    }
  }

  /** Versions go on with zeros: one more of them makes no difference. */
  lemma TrailingZeroIsEqual(p: seq<int>)
    ensures CompareFrom(p, p + [0], 0) == 0 && CompareFrom(p + [0], p, 0) == 0
  {
    NoDifferenceIsEqual(p, p + [0]);
    NoDifferenceIsEqual(p + [0], p);
  }

  lemma {:induction false} CompareFlips(p: seq<int>, q: seq<int>, i: nat)
    ensures CompareFrom(q, p, i) == -CompareFrom(p, q, i)
    decreases Max(|p|, |q|) - i
  {
    if i < Max(|p|, |q|) {
      CompareFlips(p, q, i + 1);
    }
  }

  lemma {:induction false} CompareChains(p: seq<int>, q: seq<int>, r: seq<int>, i: nat)
    requires CompareFrom(p, q, i) <= 0 && CompareFrom(q, r, i) <= 0
    ensures CompareFrom(p, r, i) == if CompareFrom(p, q, i) == 0 && CompareFrom(q, r, i) == 0 then 0 else -1
    decreases Max(Max(|p|, |q|), |r|) - i
  {
    if i < Max(Max(|p|, |q|), |r|) && At(p, i) == At(q, i) == At(r, i) {
      CompareChains(p, q, r, i + 1);
    }
  }

  /** The comparison of versions is a total preorder. */
  lemma CompareIsOrder(a: string, b: string, c: string)
    ensures Compare(b, a) == -Compare(a, b)
    ensures Compare(a, b) <= 0 && Compare(b, c) <= 0 ==>
              Compare(a, c) <= 0 && (Compare(a, b) < 0 || Compare(b, c) < 0 ==> Compare(a, c) < 0)
  {
    CompareFlips(Numbers(a), Numbers(b), 0);
    if Compare(a, b) <= 0 && Compare(b, c) <= 0 {
      CompareChains(Numbers(a), Numbers(b), Numbers(c), 0);
    }
  }

  // ----- targets -----

  datatype Target = Target(
    op: string,
    version: Option<string>,
    min: Option<string>,
    max: Option<string>,
    minInclusive: Option<bool>,
    maxInclusive: Option<bool>)

  predicate Matches(t: Target, v: string) {
    var c := if t.version.Some? then Compare(v, t.version.value) else 0;
    match t.op
    case "all" => true
    case "eq" => t.version.Some? && c == 0
    case "ne" => t.version.Some? && c != 0
    case "lt" => t.version.Some? && c < 0
    case "le" => t.version.Some? && c <= 0
    case "gt" => t.version.Some? && c > 0
    case "ge" => t.version.Some? && c >= 0
    case "range" =>
      && t.min.Some? && t.max.Some?
      && (if t.minInclusive.Or(true) then Compare(v, t.min.value) >= 0 else Compare(v, t.min.value) > 0)
      && (if t.maxInclusive.Or(true) then Compare(v, t.max.value) <= 0 else Compare(v, t.max.value) < 0)
    case _ => false
  }

  /** Apart from ne, no target has a gap: what lies between two targeted versions is targeted. */
  lemma TargetsHaveNoGaps(t: Target, low: string, v: string, high: string)
    requires t.op != "ne" && Matches(t, low) && Matches(t, high)
    requires Compare(low, v) <= 0 && Compare(v, high) <= 0
    ensures Matches(t, v)
  {
    hide Compare;
    if t.version.Some? {
      var w := t.version.value;
      CompareIsOrder(v, high, w);
      CompareIsOrder(w, low, v);
      CompareIsOrder(low, w, v);
      CompareIsOrder(v, w, high);
    }
    if t.min.Some? && t.max.Some? {
      CompareIsOrder(t.min.value, low, v);
      CompareIsOrder(v, high, t.max.value);
      CompareIsOrder(low, t.min.value, v);
      CompareIsOrder(v, t.min.value, low);
    }
  }

  /** How a version is targeted whose first part that differs from the target's is at this place. */
  lemma TargetsByDifference(t: Target, v: string, i: nat)
    requires t.version.Some? && FirstDifference(Numbers(v), Numbers(t.version.value), i)
    ensures var below := At(Numbers(v), i) < At(Numbers(t.version.value), i);
            && (t.op in {"lt", "le"} ==> (Matches(t, v) <==> below))
            && (t.op in {"gt", "ge"} ==> (Matches(t, v) <==> !below))
            && (t.op == "ne" ==> Matches(t, v))
            && (t.op == "eq" ==> !Matches(t, v))
  {
    FirstDifferenceDecides(Numbers(v), Numbers(t.version.value), i);
  }

  /** And a version none of whose parts differs. */
  lemma TargetsItself(t: Target, v: string)
    requires t.version.Some? && forall i: nat :: At(Numbers(v), i) == At(Numbers(t.version.value), i)
    ensures t.op in {"eq", "le", "ge"} ==> Matches(t, v)
    ensures t.op in {"ne", "lt", "gt"} ==> !Matches(t, v)
  {
    NoDifferenceIsEqual(Numbers(v), Numbers(t.version.value));
  }

  /** A range is what is at or above its minimum and at or below its maximum, or strictly so if asked for. */
  lemma RangeIsBoth(t: Target, v: string)
    requires t.op == "range"
    ensures t.min.None? || t.max.None? ==> !Matches(t, v)
    ensures t.min.Some? && t.max.Some? ==>
              (Matches(t, v) <==>
                 && Matches(t.(op := if t.minInclusive == Some(false) then "gt" else "ge", version := t.min), v)
                 && Matches(t.(op := if t.maxInclusive == Some(false) then "lt" else "le", version := t.max), v))
  {
    hide Compare;
  }

  /** Everything else: all versions, or none for a missing version or an unknown operator. */
  lemma TargetsAllOrNone(t: Target, v: string)
    requires t.op !in {"eq", "ne", "lt", "le", "gt", "ge", "range"} || (t.op != "range" && t.version.None?)
    ensures Matches(t, v) <==> t.op == "all"
  {
  }

  // ----- messages -----

  datatype Button = Button(text: string, action: string, url: Option<string>,
      follow: Option<string>, isDefault: Option<bool>)

  datatype Message = Message(
    id: string,
    date: Option<string>,
    target: Target,
    suppressible: Option<bool>,
    suppressDefault: Option<bool>,
    frequency: Option<string>,
    buttons: Option<seq<Button>>)

  datatype Config = Config(schema: int, messages: seq<Message>)

  /** What the system provides: which texts are URLs, and an order in which a set of ids is written. */
  datatype Env = Env(parses: string -> bool, order: set<string> -> seq<string>)

  ghost predicate Writes(env: Env) {
    forall ids {:trigger env.order(ids)} :: Distinct(env.order(ids)) && Elements(env.order(ids)) == ids
  }

  const OK := Button("OK", "continue", None, None, Some(true))

  function ButtonsOf(m: Message): (r: seq<Button>)
    ensures r != []
  {
    if m.buttons.Some? && m.buttons.value != [] then m.buttons.value else [OK]
  }

  predicate EffectiveQuit(b: Button) {
    b.action == "quit" || (b.action == "open-url" && b.follow.Or("continue") == "quit")
  }

  /** Only a link that can be opened leaves the dialog up. */
  predicate StaysOpen(env: Env, b: Button) {
    b.action == "open-url" && b.url.Some? && env.parses(b.url.value) && b.follow.Or("continue") == "stay"
  }

  /** No button closes the dialog and goes on. */
  predicate IsKillSwitch(env: Env, m: Message) {
    forall i :: 0 <= i < |ButtonsOf(m)| ==> StaysOpen(env, ButtonsOf(m)[i]) || EffectiveQuit(ButtonsOf(m)[i])
  }

  /** The actions and follow-ups that the documentation names. */
  predicate IsDocumented(b: Button) {
    b.action in {"continue", "quit", "open-url"} && b.follow in {None, Some("continue"), Some("quit"), Some("stay")}
  }

  /** The documented ways on: continuing, or opening a link and then continuing. */
  predicate NamesWayOn(b: Button) {
    b.action == "continue" || (b.action == "open-url" && b.follow.Or("continue") == "continue")
  }

  predicate AsksToStay(b: Button) {
    b.action == "open-url" && b.follow == Some("stay")
  }

  /** Every documented button does exactly one of three things: it names a way on, quits, or asks to stay. */
  lemma DocumentedButtons(b: Button)
    requires IsDocumented(b)
    ensures NamesWayOn(b) || EffectiveQuit(b) || AsksToStay(b)
    ensures !(NamesWayOn(b) && EffectiveQuit(b))
    ensures !(EffectiveQuit(b) && AsksToStay(b))
    ensures !(NamesWayOn(b) && AsksToStay(b))
    ensures EffectiveQuit(b) <==> b.action == "quit" || (b.action == "open-url" && b.follow == Some("quit"))
  {
  }

  /** A message without buttons is no kill switch. */
  lemma NoButtonsLetPass(env: Env, m: Message)
    requires m.buttons in {None, Some([])}
    ensures !IsKillSwitch(env, m)
  {
    assert ButtonsOf(m)[0] == OK;
  }

  /**
   * The documented hard block, a message that names no way on, is one exactly if every link to stay at can be
   * opened.
   */
  lemma DocumentedBlockIff(env: Env, m: Message)
    requires forall i :: 0 <= i < |ButtonsOf(m)| ==> IsDocumented(ButtonsOf(m)[i])
    requires forall i :: 0 <= i < |ButtonsOf(m)| ==> !NamesWayOn(ButtonsOf(m)[i])
    ensures IsKillSwitch(env, m)
       <==> forall i :: 0 <= i < |ButtonsOf(m)| && AsksToStay(ButtonsOf(m)[i]) ==>
              ButtonsOf(m)[i].url.Some? && env.parses(ButtonsOf(m)[i].url.value)
  {
    forall i | 0 <= i < |ButtonsOf(m)|
      ensures var b := ButtonsOf(m)[i];
              StaysOpen(env, b) || EffectiveQuit(b) <==> (AsksToStay(b) ==> b.url.Some? && env.parses(b.url.value))
    {
    }
  }

  predicate IsAlways(m: Message) {
    m.frequency.Or("once") == "always"
  }

  predicate Shows(m: Message, version: string, seen: set<string>) {
    Matches(m.target, version) && (IsAlways(m) || m.id !in seen)
  }

  /** How the user leaves the dialog: by a button that closes it, perhaps with the checkbox set. */
  datatype Choice = Choice(button: nat, checked: bool)

  predicate CanChoose(env: Env, m: Message, c: Choice) {
    c.button < |ButtonsOf(m)| && !StaysOpen(env, ButtonsOf(m)[c.button]) && (c.checked ==> m.suppressible.Or(false))
  }

  predicate Quits(m: Message, c: Choice)
    requires c.button < |ButtonsOf(m)|
  {
    EffectiveQuit(ButtonsOf(m)[c.button])
  }

  /** The checkbox decides if there is one, the frequency otherwise; quitting never marks. */
  predicate Marks(m: Message, c: Choice)
    requires c.button < |ButtonsOf(m)|
  {
    && !Quits(m, c)
    && if m.suppressible.Or(false) then c.checked else m.frequency.Or("once") == "once"
  }

  // ----- oldest first -----

  predicate Before(m: Message, n: Message) {
    Strings.Less(m.date.Or(""), n.date.Or(""))
  }

  function InsertByDate(m: Message, ms: seq<Message>): (r: seq<Message>)
    ensures multiset(r) == multiset(ms) + multiset{m}
  {
    if ms == [] then [m]
    else if !Before(ms[0], m) then [m] + ms
    else
      assert ms == [ms[0]] + ms[1..];
      [ms[0]] + InsertByDate(m, ms[1..])
  }

  function OldestFirst(ms: seq<Message>): (r: seq<Message>)
    ensures multiset(r) == multiset(ms)
  {
    if ms == [] then []
    else
      assert ms == [ms[0]] + ms[1..];
      InsertByDate(ms[0], OldestFirst(ms[1..]))
  }

  predicate Ascending(ms: seq<Message>) {
    forall i, j :: 0 <= i < j < |ms| ==> !Strings.Less(ms[j].date.Or(""), ms[i].date.Or(""))
  }

  function OfDate(ms: seq<Message>, date: string): seq<Message> {
    if ms == [] then [] else (if ms[0].date.Or("") == date then [ms[0]] else []) + OfDate(ms[1..], date)
  }

  /** Sorted by date, and messages of one date stay in their order. */
  lemma {:induction false} OldestFirstIsStable(ms: seq<Message>, date: string)
    ensures Ascending(OldestFirst(ms))
    ensures OfDate(OldestFirst(ms), date) == OfDate(ms, date)
  {
    if ms != [] {
      OldestFirstIsStable(ms[1..], date);
      hide InsertByDate;
      InsertAscends(ms[0], OldestFirst(ms[1..]));
      InsertKeepsOrder(ms[0], OldestFirst(ms[1..]), date);
    }
  }

  lemma {:induction false} InsertAscends(m: Message, ms: seq<Message>)
    requires Ascending(ms)
    ensures Ascending(InsertByDate(m, ms))
  {
    hide Strings.Less;
    var r := InsertByDate(m, ms);
    if ms == [] {
    } else if !Before(ms[0], m) {
      forall j | 0 < j < |ms|
        ensures !Before(ms[j], m)
      {
        NotBeforeChains(m, ms[0], ms[j]);
      }
    } else {
      InsertAscends(m, ms[1..]);
      var rest := InsertByDate(m, ms[1..]);
      forall j | 0 <= j < |rest|
        ensures !Before(rest[j], ms[0])
      {
        assert rest[j] in multiset(rest);
        BeforeIsStrict(ms[0], m);
      }
    }
  }

  lemma OfDateStep(h: Message, rest: seq<Message>, date: string)
    ensures OfDate([h] + rest, date) == (if h.date.Or("") == date then [h] else []) + OfDate(rest, date)
  {
    assert ([h] + rest)[1..] == rest;
  }

  lemma {:induction false} InsertKeepsOrder(m: Message, ms: seq<Message>, date: string)
    ensures OfDate(InsertByDate(m, ms), date) == (if m.date.Or("") == date then [m] else []) + OfDate(ms, date)
  {
    hide Before, OfDate;
    if ms == [] {
      OfDateStep(m, [], date);
      assert [m] + [] == [m];
    } else if !Before(ms[0], m) {
      OfDateStep(m, ms, date);
    } else {
      BeforeIsStrict(ms[0], m);
      InsertKeepsOrder(m, ms[1..], date);
      OfDateStep(ms[0], ms[1..], date);
      OfDateStep(ms[0], InsertByDate(m, ms[1..]), date);
      assert ms == [ms[0]] + ms[1..];
    }
  }

  lemma BeforeIsStrict(m: Message, n: Message)
    requires Before(m, n)
    ensures !Before(n, m) && m.date.Or("") != n.date.Or("")
  {
    Strings.Trichotomy(m.date.Or(""), n.date.Or(""));
  }

  lemma NotBeforeChains(m: Message, n: Message, k: Message)
    requires !Before(n, m) && !Before(k, n)
    ensures !Before(k, m)
  {
    var a, b, c := m.date.Or(""), n.date.Or(""), k.date.Or("");
    Strings.Trichotomy(a, b);
    Strings.Trichotomy(b, c);
    if Strings.Less(c, a) {
      if Strings.Less(b, c) {
        Strings.Transitivity(b, c, a);
      }
    }
  }

  // ----- one launch -----

  /** The seen ids, the file, whether the launcher must quit, and what was shown. */
  datatype Outcome = Outcome(seen: set<string>, file: string, quit: bool, shown: seq<Message>)

  /** The user gets out of every dialog that is shown. */
  ghost predicate Completes(env: Env, ms: seq<Message>, version: string, seen: set<string>, choices: seq<Choice>)
    requires |choices| == |ms|
    decreases |ms|
  {
    if ms == [] then true
    else if !Shows(ms[0], version, seen) then Completes(env, ms[1..], version, seen, choices[1..])
    else
      && CanChoose(env, ms[0], choices[0])
      && (Quits(ms[0], choices[0]) || Completes(env, ms[1..], version, Marked(ms[0], choices[0], seen), choices[1..]))
  }

  function Marked(m: Message, c: Choice, seen: set<string>): set<string>
    requires c.button < |ButtonsOf(m)|
  {
    if Marks(m, c) then seen + {m.id} else seen
  }

  ghost function Process(env: Env, ms: seq<Message>, version: string, seen: set<string>,
      file: string, choices: seq<Choice>): Outcome
    requires |choices| == |ms| && Completes(env, ms, version, seen, choices)
    decreases |ms|
  {
    if ms == [] then Outcome(seen, file, false, [])
    else if !Shows(ms[0], version, seen) then Process(env, ms[1..], version, seen, file, choices[1..])
    else
      var seen' := Marked(ms[0], choices[0], seen);
      var file' := if Marks(ms[0], choices[0]) then Join(env.order(seen')) else file;
      if Quits(ms[0], choices[0]) then Outcome(seen', file', true, [ms[0]])
      else
        var rest := Process(env, ms[1..], version, seen', file', choices[1..]);
        rest.(shown := [ms[0]] + rest.shown)
  }

  method ProcessMessages(env: Env, ms: seq<Message>, version: string, startSeen: set<string>,
      startFile: string, choices: seq<Choice>)
    returns (seen: set<string>, file: string, mustQuit: bool, shown: seq<Message>)
    requires |choices| == |ms| && Completes(env, ms, version, startSeen, choices)
    ensures Outcome(seen, file, mustQuit, shown) == Process(env, ms, version, startSeen, startFile, choices)
  {
    hide Matches, Join, StaysOpen, EffectiveQuit, ButtonsOf;
    seen, file, mustQuit, shown := startSeen, startFile, false, [];
    ghost var whole := Process(env, ms, version, seen, file, choices);
    for i := 0 to |ms|
      invariant !mustQuit
      invariant Completes(env, ms[i..], version, seen, choices[i..])
      invariant var rest := Process(env, ms[i..], version, seen, file, choices[i..]);
                rest.(shown := shown + rest.shown) == whole
    {
      assert ms[i..][1..] == ms[i + 1..] && choices[i..][1..] == choices[i + 1..];
      var m, c := ms[i], choices[i];
      if !Matches(m.target, version) {
        continue;
      }
      var alwaysShow := m.frequency.Or("once") == "always";
      if !alwaysShow && m.id in seen {
        continue;
      }
      var clicked := ButtonsOf(m)[c.button];
      var eq := EffectiveQuit(clicked);
      var markSeen := false;
      if m.suppressible.Or(false) {
        markSeen := c.checked && !eq;
      } else if m.frequency.Or("once") == "once" {
        markSeen := !eq;
      }
      shown := shown + [m];
      if markSeen {
        seen := seen + {m.id};
        file := Join(env.order(seen));
      }
      if eq {
        mustQuit := true;
        return;
      }
    }
  }

  /** One run of the launcher: the config that was fetched, if any; the version; the user's choices. */
  datatype Visit = Visit(config: Option<Config>, version: string, choices: seq<Choice>)

  /** Without a config of the right schema the launcher goes on. */
  function MessagesOf(v: Visit): seq<Message> {
    if v.config.Some? && v.config.value.schema == 1 then OldestFirst(v.config.value.messages) else []
  }

  ghost predicate VisitCompletes(env: Env, v: Visit, file: string) {
    |v.choices| == |MessagesOf(v)| && Completes(env, MessagesOf(v), v.version, Elements(Lines(file)), v.choices)
  }

  ghost function Launch(env: Env, v: Visit, file: string): Outcome
    requires VisitCompletes(env, v, file)
  {
    Process(env, MessagesOf(v), v.version, Elements(Lines(file)), file, v.choices)
  }

  function ExitCode(o: Outcome): int {
    if o.quit then 2 else 0
  }

  // ----- many launches -----

  ghost predicate AllComplete(env: Env, visits: seq<Visit>, file: string)
    decreases |visits|
  {
    visits == []
    || (VisitCompletes(env, visits[0], file) && AllComplete(env, visits[1..], Launch(env, visits[0], file).file))
  }

  /** The file after a series of launches. */
  ghost function FileAfter(env: Env, visits: seq<Visit>, file: string): string
    requires AllComplete(env, visits, file)
    decreases |visits|
  {
    if visits == [] then file else FileAfter(env, visits[1..], Launch(env, visits[0], file).file)
  }

  /** An id that can stand on any line. */
  predicate Clean(id: string) {
    id != "" && Unbroken(id) && !EndsWithReturn(id)
  }

  ghost predicate AllClean(ids: set<string>) {
    forall id :: id in ids ==> Clean(id)
  }

  ghost predicate CleanMessages(ms: seq<Message>) {
    forall i :: 0 <= i < |ms| ==> Clean(ms[i].id)
  }

  /** What the launcher wrote is what it reads next time. */
  lemma WrittenIsRead(env: Env, ids: set<string>)
    requires Writes(env) && AllClean(ids)
    ensures Elements(Lines(Join(env.order(ids)))) == ids
  {
    var written := env.order(ids);
    forall i | 0 <= i < |written|
      ensures Clean(written[i])
    {
      assert written[i] in Elements(written);
    }
    assert Storable(written);
    RoundTripIff(written);
  }

  /** A launch keeps the file in step with the seen ids, and the seen ids only grow. */
  lemma {:induction false} ProcessKeeps(env: Env, ms: seq<Message>, version: string,
      seen: set<string>, file: string, choices: seq<Choice>)
    requires Writes(env) && |choices| == |ms| && Completes(env, ms, version, seen, choices)
    requires CleanMessages(ms) && AllClean(seen) && Elements(Lines(file)) == seen
    ensures var o := Process(env, ms, version, seen, file, choices);
            AllClean(o.seen) && Elements(Lines(o.file)) == o.seen && seen <= o.seen
    decreases |ms|
  {
    if ms != [] {
      if !Shows(ms[0], version, seen) {
        ProcessKeeps(env, ms[1..], version, seen, file, choices[1..]);
      } else {
        var seen' := Marked(ms[0], choices[0], seen);
        var file' := if Marks(ms[0], choices[0]) then Join(env.order(seen')) else file;
        WrittenIsRead(env, seen');
        if !Quits(ms[0], choices[0]) {
          ProcessKeeps(env, ms[1..], version, seen', file', choices[1..]);
        }
      }
    }
  }

  ghost predicate Blocks(env: Env, ms: seq<Message>, m: Message, version: string, seen: set<string>) {
    && m in ms && Matches(m.target, version) && IsKillSwitch(env, m)
    && (IsAlways(m) || (m.id !in seen && OnlyKillSwitches(env, ms, m.id)))
  }

  ghost predicate OnlyKillSwitches(env: Env, ms: seq<Message>, id: string) {
    forall i :: 0 <= i < |ms| && ms[i].id == id ==> IsKillSwitch(env, ms[i])
  }

  /** Whoever gets out of a kill switch quits; whatever is shown before it cannot take it away. */
  lemma {:induction false} KillSwitchQuits(env: Env, ms: seq<Message>, m: Message,
      version: string, seen: set<string>, file: string, choices: seq<Choice>)
    requires |choices| == |ms| && Completes(env, ms, version, seen, choices) && Blocks(env, ms, m, version, seen)
    ensures Process(env, ms, version, seen, file, choices).quit
    decreases |ms|
  {
    var h, c := ms[0], choices[0];
    if Shows(h, version, seen) && Quits(h, c) {
    } else {
      assert h != m;
      assert m in ms[1..];
      var shows := Shows(h, version, seen);
      var seen' := if shows then Marked(h, c, seen) else seen;
      var file' := if shows && Marks(h, c) then Join(env.order(seen')) else file;
      KillSwitchQuits(env, ms[1..], m, version, seen', file', choices[1..]);
    }
  }

  /** Any other message that is shown can be left without quitting. */
  lemma OthersLetPass(env: Env, m: Message, version: string, seen: set<string>, file: string) returns (c: Choice)
    requires Shows(m, version, seen) && !IsKillSwitch(env, m)
    ensures Completes(env, [m], version, seen, [c])
    ensures !Process(env, [m], version, seen, file, [c]).quit
  {
    var i :| 0 <= i < |ButtonsOf(m)| && !StaysOpen(env, ButtonsOf(m)[i]) && !EffectiveQuit(ButtonsOf(m)[i]);
    c := Choice(i, false);
    assert [m][1..] == [] && [c][1..] == [];
  }

  /** A kill switch that is always shown stops every launch that gets it, whatever was seen before. */
  lemma AlwaysKillSwitchHolds(env: Env, v: Visit, file: string, m: Message)
    requires VisitCompletes(env, v, file)
    requires v.config.Some? && v.config.value.schema == 1 && m in v.config.value.messages
    requires Matches(m.target, v.version) && IsKillSwitch(env, m) && IsAlways(m)
    ensures ExitCode(Launch(env, v, file)) == 2
  {
    InOldestFirst(v.config.value.messages, m);
    KillSwitchQuits(env, MessagesOf(v), m, v.version, Elements(Lines(file)), file, v.choices);
  }

  lemma InOldestFirst(ms: seq<Message>, m: Message)
    ensures m in OldestFirst(ms) <==> m in ms
  {
    assert m in OldestFirst(ms) <==> m in multiset(OldestFirst(ms));
    assert m in ms <==> m in multiset(ms);
  }

  /** The id never gets into the file if it is only ever served without a way to go on. */
  lemma {:induction false} UnmarkedStaysUnseen(env: Env, ms: seq<Message>, version: string,
      seen: set<string>, file: string, choices: seq<Choice>, id: string)
    requires |choices| == |ms| && Completes(env, ms, version, seen, choices)
    requires id !in seen && OnlyKillSwitches(env, ms, id)
    ensures id !in Process(env, ms, version, seen, file, choices).seen
    decreases |ms|
  {
    if ms != [] {
      var h, c := ms[0], choices[0];
      if Shows(h, version, seen) {
        if !Quits(h, c) {
          var seen' := Marked(h, c, seen);
          var file' := if Marks(h, c) then Join(env.order(seen')) else file;
          UnmarkedStaysUnseen(env, ms[1..], version, seen', file', choices[1..], id);
        }
      } else {
        UnmarkedStaysUnseen(env, ms[1..], version, seen, file, choices[1..], id);
      }
    }
  }

  ghost predicate CleanVisits(visits: seq<Visit>) {
    forall i :: 0 <= i < |visits| ==> CleanMessages(MessagesOf(visits[i]))
  }

  ghost predicate CleanFile(file: string) {
    AllClean(Elements(Lines(file)))
  }

  /** Over any series of launches the seen ids only grow, and the file stays readable. */
  lemma {:induction false} VisitsKeep(env: Env, visits: seq<Visit>, file: string)
    requires Writes(env) && AllComplete(env, visits, file) && CleanVisits(visits) && CleanFile(file)
    ensures CleanFile(FileAfter(env, visits, file))
    ensures Elements(Lines(file)) <= Elements(Lines(FileAfter(env, visits, file)))
    decreases |visits|
  {
    if visits != [] {
      var v := visits[0];
      ProcessKeeps(env, MessagesOf(v), v.version, Elements(Lines(file)), file, v.choices);
      VisitsKeep(env, visits[1..], Launch(env, v, file).file);
    }
  }

  lemma {:induction false} VisitsKeepUnseen(env: Env, visits: seq<Visit>, file: string, id: string)
    requires Writes(env) && AllComplete(env, visits, file) && CleanVisits(visits) && CleanFile(file)
    requires id !in Lines(file)
    requires forall i :: 0 <= i < |visits| ==> OnlyKillSwitches(env, MessagesOf(visits[i]), id)
    ensures id !in Lines(FileAfter(env, visits, file))
    decreases |visits|
  {
    if visits != [] {
      var v := visits[0];
      ProcessKeeps(env, MessagesOf(v), v.version, Elements(Lines(file)), file, v.choices);
      UnmarkedStaysUnseen(env, MessagesOf(v), v.version, Elements(Lines(file)), file, v.choices, id);
      VisitsKeepUnseen(env, visits[1..], Launch(env, v, file).file, id);
    }
  }

  /** A kill switch of any frequency stops every launch, if its id was never served with a way to go on. */
  lemma KillSwitchHolds(env: Env, visits: seq<Visit>, v: Visit, file: string, m: Message)
    requires Writes(env) && AllComplete(env, visits, file) && CleanVisits(visits) && CleanFile(file)
    requires m.id !in Lines(file)
    requires forall i :: 0 <= i < |visits| ==> OnlyKillSwitches(env, MessagesOf(visits[i]), m.id)
    requires VisitCompletes(env, v, FileAfter(env, visits, file)) && m in MessagesOf(v) &&
             OnlyKillSwitches(env, MessagesOf(v), m.id)
    requires Matches(m.target, v.version)
    ensures ExitCode(Launch(env, v, FileAfter(env, visits, file))) == 2
  {
    var file' := FileAfter(env, visits, file);
    VisitsKeepUnseen(env, visits, file, m.id);
    KillSwitchQuits(env, MessagesOf(v), m, v.version, Elements(Lines(file')), file', v.choices);
  }

  /** Whatever is shown is always shown, or was not seen; and what is always shown is shown unless the launch quits. */
  lemma {:induction false} ShownMessages(env: Env, ms: seq<Message>, version: string,
      seen: set<string>, file: string, choices: seq<Choice>, m: Message)
    requires |choices| == |ms| && Completes(env, ms, version, seen, choices)
    ensures var o := Process(env, ms, version, seen, file, choices);
            && (m in o.shown ==> m in ms && Matches(m.target, version) && (IsAlways(m) || m.id !in seen))
            && (m in ms && Matches(m.target, version) && IsAlways(m) ==> m in o.shown || o.quit)
    decreases |ms|
  {
    if ms != [] {
      var h, c := ms[0], choices[0];
      assert m in ms <==> m == h || m in ms[1..];
      if Shows(h, version, seen) {
        var seen' := Marked(h, c, seen);
        if !Quits(h, c) {
          var file' := if Marks(h, c) then Join(env.order(seen')) else file;
          ShownMessages(env, ms[1..], version, seen', file', choices[1..], m);
        }
      } else {
        ShownMessages(env, ms[1..], version, seen, file, choices[1..], m);
      }
    }
  }

  /** The message at this place of those shown was dismissed without quitting: only the last one can quit. */
  predicate Dismissed(o: Outcome, i: nat) {
    i < |o.shown| && (o.quit ==> i < |o.shown| - 1)
  }

  predicate IsOnce(m: Message) {
    !m.suppressible.Or(false) && m.frequency.Or("once") == "once"
  }

  /** A one-time message that was dismissed has been seen, also if a later message quits the same launch. */
  lemma {:induction false} DismissedIsSeen(env: Env, ms: seq<Message>, version: string,
      seen: set<string>, file: string, choices: seq<Choice>, i: nat)
    requires |choices| == |ms| && Completes(env, ms, version, seen, choices)
    requires var o := Process(env, ms, version, seen, file, choices); Dismissed(o, i) && IsOnce(o.shown[i])
    ensures var o := Process(env, ms, version, seen, file, choices); o.shown[i].id in o.seen
    decreases |ms|
  {
    var h, c := ms[0], choices[0];
    if !Shows(h, version, seen) {
      DismissedIsSeen(env, ms[1..], version, seen, file, choices[1..], i);
    } else if !Quits(h, c) {
      var seen' := Marked(h, c, seen);
      var file' := if Marks(h, c) then Join(env.order(seen')) else file;
      if i == 0 {
        SeenGrows(env, ms[1..], version, seen', file', choices[1..]);
      } else {
        DismissedIsSeen(env, ms[1..], version, seen', file', choices[1..], i - 1);
      }
    }
  }

  lemma {:induction false} SeenGrows(env: Env, ms: seq<Message>, version: string,
      seen: set<string>, file: string, choices: seq<Choice>)
    requires |choices| == |ms| && Completes(env, ms, version, seen, choices)
    ensures seen <= Process(env, ms, version, seen, file, choices).seen
    decreases |ms|
  {
    if ms != [] {
      var h, c := ms[0], choices[0];
      if !Shows(h, version, seen) {
        SeenGrows(env, ms[1..], version, seen, file, choices[1..]);
      } else if !Quits(h, c) {
        var seen' := Marked(h, c, seen);
        SeenGrows(env, ms[1..], version, seen', if Marks(h, c) then Join(env.order(seen')) else file, choices[1..]);
      }
    }
  }

  /**
   * A one-time message that was dismissed, by whatever end of its launch, never comes back, not even
   * under another form, unless it is turned into one that is always shown.
   */
  lemma DismissedStaysAway(env: Env, first: Visit, i: nat, visits: seq<Visit>, last: Visit, file: string, n: Message)
    requires Writes(env) && CleanFile(file) && CleanVisits([first]) && CleanVisits(visits)
    requires VisitCompletes(env, first, file)
    requires var o := Launch(env, first, file);
             && Dismissed(o, i) && IsOnce(o.shown[i])
             && AllComplete(env, visits, o.file)
             && VisitCompletes(env, last, FileAfter(env, visits, o.file))
             && n in Launch(env, last, FileAfter(env, visits, o.file)).shown && n.id == o.shown[i].id
    ensures IsAlways(n)
  {
    var ms, seen := MessagesOf(first), Elements(Lines(file));
    assert CleanMessages(MessagesOf([first][0]));
    DismissedIsSeen(env, ms, first.version, seen, file, first.choices, i);
    ProcessKeeps(env, ms, first.version, seen, file, first.choices);
    var file1 := Launch(env, first, file).file;
    VisitsKeep(env, visits, file1);
    var file2 := FileAfter(env, visits, file1);
    ShownMessages(env, MessagesOf(last), last.version, Elements(Lines(file2)), file2, last.choices, n);
  }

  predicate Serves(v: Visit, m: Message) {
    v.config.Some? && v.config.value.schema == 1 && m in v.config.value.messages
  }

  /**
   * A message that was seen is shown again only if it is always shown, so making it non-suppressible
   * does not bring it back; and in a launch that nothing quits it is shown exactly if it is served,
   * meant for this version and always shown.
   */
  lemma OnlyAlwaysBringsBack(env: Env, v: Visit, file: string, m: Message)
    requires VisitCompletes(env, v, file) && m.id in Lines(file)
    ensures var o := Launch(env, v, file);
            var forced := Serves(v, m) && Matches(m.target, v.version) && IsAlways(m);
            && (m in o.shown ==> forced)
            && (forced ==> m in o.shown || o.quit)
            && (!o.quit ==> (m in o.shown <==> forced))
  {
    if v.config.Some? {
      InOldestFirst(v.config.value.messages, m);
    }
    ShownMessages(env, MessagesOf(v), v.version, Elements(Lines(file)), file, v.choices, m);
  }
}
