/**
 * What exactly a launch does, message by message: when each is shown, what the user's choices put
 * away, and when the launcher quits.
 */
module LaunchEffects {
  import opened Options
  import opened SeenFile
  import opened Launcher

  /** The message at this place is shown: none before it quits, and it is due by then. */
  ghost predicate ShownAt(env: Env, ms: seq<Message>, version: string, seen: set<string>, choices: seq<Choice>, i: nat)
    requires |choices| == |ms| && Completes(env, ms, version, seen, choices) && i < |ms|
    decreases i
  {
    if i == 0 then Shows(ms[0], version, seen)
    else if !Shows(ms[0], version, seen) then ShownAt(env, ms[1..], version, seen, choices[1..], i - 1)
    else
      && !Quits(ms[0], choices[0])
      && ShownAt(env, ms[1..], version, Marked(ms[0], choices[0], seen), choices[1..], i - 1)
  }

  /** The user chose a button that quits. */
  predicate ChoseToQuit(m: Message, c: Choice)
    requires c.button < |ButtonsOf(m)|
  {
    var b := ButtonsOf(m)[c.button];
    b.action == "quit" || (b.action == "open-url" && b.follow == Some("quit"))
  }

  /** The user does not want to see the message again: by the checkbox if there is one, else after one time. */
  predicate ChoseOnce(m: Message, c: Choice)
    requires c.button < |ButtonsOf(m)|
  {
    && !ChoseToQuit(m, c)
    && if m.suppressible == Some(true) then c.checked else m.frequency in {None, Some("once")}
  }

  lemma {:induction false} ShownIsChosen(env: Env, ms: seq<Message>, version: string, seen: set<string>,
      choices: seq<Choice>, i: nat)
    requires |choices| == |ms| && Completes(env, ms, version, seen, choices) && i < |ms|
    requires ShownAt(env, ms, version, seen, choices, i)
    ensures choices[i].button < |ButtonsOf(ms[i])|
    ensures ChoseToQuit(ms[i], choices[i]) <==> Quits(ms[i], choices[i])
    ensures ChoseOnce(ms[i], choices[i]) <==> Marks(ms[i], choices[i])
    decreases i
  {
    if i > 0 {
      var seen' := if Shows(ms[0], version, seen) then Marked(ms[0], choices[0], seen) else seen;
      ShownIsChosen(env, ms[1..], version, seen', choices[1..], i - 1);
    }
  }

  /** What the rest of a launch starts with after its first message. */
  function SeenNext(m: Message, c: Choice, version: string, seen: set<string>): set<string>
    requires Shows(m, version, seen) ==> c.button < |ButtonsOf(m)|
  {
    if Shows(m, version, seen) then Marked(m, c, seen) else seen
  }

  /** The choices at two places of a launch, for the lemmas below. */
  ghost predicate QuitAt(env: Env, ms: seq<Message>, version: string, seen: set<string>, choices: seq<Choice>, i: nat)
    requires |choices| == |ms| && Completes(env, ms, version, seen, choices)
  {
    && i < |ms| && ShownAt(env, ms, version, seen, choices, i)
    && choices[i].button < |ButtonsOf(ms[i])| && ChoseToQuit(ms[i], choices[i])
  }

  ghost predicate OnceAt(env: Env, ms: seq<Message>, version: string, seen: set<string>, choices: seq<Choice>, i: nat)
    requires |choices| == |ms| && Completes(env, ms, version, seen, choices)
  {
    && i < |ms| && ShownAt(env, ms, version, seen, choices, i)
    && choices[i].button < |ButtonsOf(ms[i])| && ChoseOnce(ms[i], choices[i])
  }

  /** Nothing happens at a later place if the first message quits; otherwise it is a place of the rest. */
  lemma AtLater(env: Env, ms: seq<Message>, version: string, seen: set<string>, choices: seq<Choice>, i: nat)
    requires |choices| == |ms| && Completes(env, ms, version, seen, choices) && 0 < i < |ms|
    ensures var quits := QuitAt(env, ms, version, seen, choices, 0);
            var rest, seen' := ms[1..], SeenNext(ms[0], choices[0], version, seen);
            && (quits ==> !ShownAt(env, ms, version, seen, choices, i))
            && (!quits ==>
                  && Completes(env, rest, version, seen', choices[1..])
                  && (ShownAt(env, ms, version, seen, choices, i) <==>
                        ShownAt(env, rest, version, seen', choices[1..], i - 1))
                  && (QuitAt(env, ms, version, seen, choices, i) <==>
                        QuitAt(env, rest, version, seen', choices[1..], i - 1))
                  && (OnceAt(env, ms, version, seen, choices, i) <==>
                        OnceAt(env, rest, version, seen', choices[1..], i - 1)))
  {
    hide ChoseToQuit, ChoseOnce, Shows, Marked, Marks;
    if ShownAt(env, ms, version, seen, choices, 0) {
      ShownIsChosen(env, ms, version, seen, choices, 0);
    }
  }

  /**
   * When a message is shown: no message shown before it made the user quit, it is meant for this version,
   * and it is always shown, or it was neither seen before nor put away earlier in this launch.
   */
  lemma {:induction false} ShownAtIff(env: Env, ms: seq<Message>, version: string, seen: set<string>,
      choices: seq<Choice>, i: nat)
    requires |choices| == |ms| && Completes(env, ms, version, seen, choices) && i < |ms|
    ensures ShownAt(env, ms, version, seen, choices, i) <==>
              && (forall j: nat :: j < i ==> !QuitAt(env, ms, version, seen, choices, j))
              && Matches(ms[i].target, version)
              && (ms[i].frequency == Some("always")
                  || (ms[i].id !in seen
                      && forall j: nat :: j < i && ms[j].id == ms[i].id ==>
                           !OnceAt(env, ms, version, seen, choices, j)))
    decreases i
  {
    hide Matches, Completes, ShownAt, QuitAt, OnceAt;
    if i == 0 {
      AtFirst(env, ms, version, seen, choices);
    } else {
      AtFirst(env, ms, version, seen, choices);
      AtLater(env, ms, version, seen, choices, i);
      if !QuitAt(env, ms, version, seen, choices, 0) {
        var seen' := SeenNext(ms[0], choices[0], version, seen);
        ShownAtIff(env, ms[1..], version, seen', choices[1..], i - 1);
        forall j: nat | 0 < j < i
          ensures QuitAt(env, ms, version, seen, choices, j) <==>
                    QuitAt(env, ms[1..], version, seen', choices[1..], j - 1)
          ensures OnceAt(env, ms, version, seen, choices, j) <==>
                    OnceAt(env, ms[1..], version, seen', choices[1..], j - 1)
        {
          AtLater(env, ms, version, seen, choices, j);
        }
        forall j: nat | j < i - 1
          ensures QuitAt(env, ms[1..], version, seen', choices[1..], j) <==>
                    QuitAt(env, ms, version, seen, choices, j + 1)
          ensures OnceAt(env, ms[1..], version, seen', choices[1..], j) <==>
                    OnceAt(env, ms, version, seen, choices, j + 1)
        {
          AtLater(env, ms, version, seen, choices, j + 1);
        }
        assert forall j: nat :: 0 < j < |ms| ==> ms[j] == ms[1..][j - 1];
      }
    }
  }

  lemma AtFirst(env: Env, ms: seq<Message>, version: string, seen: set<string>, choices: seq<Choice>)
    requires |choices| == |ms| && Completes(env, ms, version, seen, choices) && ms != []
    ensures var m := ms[0];
            && (ShownAt(env, ms, version, seen, choices, 0) <==>
                  Matches(m.target, version) && (m.frequency == Some("always") || m.id !in seen))
            && (ShownAt(env, ms, version, seen, choices, 0) ==> choices[0].button < |ButtonsOf(m)|)
            && SeenNext(m, choices[0], version, seen) ==
               if OnceAt(env, ms, version, seen, choices, 0) then seen + {m.id} else seen
  {
    if Shows(ms[0], version, seen) {
      ShownIsChosen(env, ms, version, seen, choices, 0);
    }
  }

  ghost predicate AnyQuit(env: Env, ms: seq<Message>, version: string, seen: set<string>, choices: seq<Choice>)
    requires |choices| == |ms| && Completes(env, ms, version, seen, choices)
  {
    exists i: nat :: QuitAt(env, ms, version, seen, choices, i)
  }

  ghost predicate AnyOnce(env: Env, ms: seq<Message>, version: string, seen: set<string>,
      choices: seq<Choice>, id: string)
    requires |choices| == |ms| && Completes(env, ms, version, seen, choices)
  {
    exists i: nat :: OnceAt(env, ms, version, seen, choices, i) && ms[i].id == id
  }

  ghost predicate AnyShown(env: Env, ms: seq<Message>, version: string, seen: set<string>,
      choices: seq<Choice>, m: Message)
    requires |choices| == |ms| && Completes(env, ms, version, seen, choices)
  {
    exists i: nat :: i < |ms| && ShownAt(env, ms, version, seen, choices, i) && ms[i] == m
  }

  lemma RestCompletes(env: Env, ms: seq<Message>, version: string, seen: set<string>, choices: seq<Choice>)
    requires |choices| == |ms| && Completes(env, ms, version, seen, choices) && ms != []
    ensures Shows(ms[0], version, seen) ==> choices[0].button < |ButtonsOf(ms[0])|
    ensures !QuitAt(env, ms, version, seen, choices, 0) ==>
              Completes(env, ms[1..], version, SeenNext(ms[0], choices[0], version, seen), choices[1..])
  {
    if Shows(ms[0], version, seen) {
      ShownIsChosen(env, ms, version, seen, choices, 0);
    }
  }

  lemma AnyQuitUnfolds(env: Env, ms: seq<Message>, version: string, seen: set<string>, choices: seq<Choice>)
    requires |choices| == |ms| && Completes(env, ms, version, seen, choices) && ms != []
    ensures var quits := QuitAt(env, ms, version, seen, choices, 0);
            var rest, seen' := ms[1..], SeenNext(ms[0], choices[0], version, seen);
            && (!quits ==> Completes(env, rest, version, seen', choices[1..]))
            && (AnyQuit(env, ms, version, seen, choices) <==>
                  || (QuitAt(env, ms, version, seen, choices, 0))
                  || (!quits && AnyQuit(env, rest, version, seen', choices[1..])))
  {
    var quits := QuitAt(env, ms, version, seen, choices, 0);
    var rest, seen' := ms[1..], SeenNext(ms[0], choices[0], version, seen);
    if i: nat :| QuitAt(env, ms, version, seen, choices, i) {
      if i > 0 {
        AtLater(env, ms, version, seen, choices, i);
        hide ShownAt, Completes, ChoseToQuit, ChoseOnce;
        assert !quits && QuitAt(env, rest, version, seen', choices[1..], i - 1);
      }
    }
    if !quits {
      RestCompletes(env, ms, version, seen, choices);
      hide ShownAt, Completes, ChoseToQuit, ChoseOnce;
      if j: nat :| QuitAt(env, rest, version, seen', choices[1..], j) {
        AtLater(env, ms, version, seen, choices, j + 1);
        assert QuitAt(env, ms, version, seen, choices, j + 1);
      }
    }
  }

  lemma AnyOnceUnfolds(env: Env, ms: seq<Message>, version: string, seen: set<string>, choices: seq<Choice>, id: string)
    requires |choices| == |ms| && Completes(env, ms, version, seen, choices) && ms != []
    ensures var quits := QuitAt(env, ms, version, seen, choices, 0);
            var rest, seen' := ms[1..], SeenNext(ms[0], choices[0], version, seen);
            && (!quits ==> Completes(env, rest, version, seen', choices[1..]))
            && (AnyOnce(env, ms, version, seen, choices, id) <==>
                  || (OnceAt(env, ms, version, seen, choices, 0) && ms[0].id == id)
                  || (!quits && AnyOnce(env, rest, version, seen', choices[1..], id)))
  {
    var quits := QuitAt(env, ms, version, seen, choices, 0);
    var rest, seen' := ms[1..], SeenNext(ms[0], choices[0], version, seen);
    if i: nat :| OnceAt(env, ms, version, seen, choices, i) && ms[i].id == id {
      if i > 0 {
        AtLater(env, ms, version, seen, choices, i);
        hide ShownAt, Completes, ChoseToQuit, ChoseOnce;
        assert !quits && OnceAt(env, rest, version, seen', choices[1..], i - 1);
      }
    }
    if !quits {
      RestCompletes(env, ms, version, seen, choices);
      hide ShownAt, Completes, ChoseToQuit, ChoseOnce;
      if j: nat :| OnceAt(env, rest, version, seen', choices[1..], j) && rest[j].id == id {
        AtLater(env, ms, version, seen, choices, j + 1);
        assert OnceAt(env, ms, version, seen, choices, j + 1);
      }
    }
  }

  lemma AnyShownUnfolds(env: Env, ms: seq<Message>, version: string, seen: set<string>,
      choices: seq<Choice>, m: Message)
    requires |choices| == |ms| && Completes(env, ms, version, seen, choices) && ms != []
    ensures var quits := QuitAt(env, ms, version, seen, choices, 0);
            var rest, seen' := ms[1..], SeenNext(ms[0], choices[0], version, seen);
            && (!quits ==> Completes(env, rest, version, seen', choices[1..]))
            && (AnyShown(env, ms, version, seen, choices, m) <==>
                  || (ShownAt(env, ms, version, seen, choices, 0) && ms[0] == m)
                  || (!quits && AnyShown(env, rest, version, seen', choices[1..], m)))
  {
    var quits := QuitAt(env, ms, version, seen, choices, 0);
    var rest, seen' := ms[1..], SeenNext(ms[0], choices[0], version, seen);
    if i: nat :| i < |ms| && ShownAt(env, ms, version, seen, choices, i) && ms[i] == m {
      if i > 0 {
        AtLater(env, ms, version, seen, choices, i);
        hide ShownAt, Completes, ChoseToQuit, ChoseOnce;
        assert !quits && ShownAt(env, rest, version, seen', choices[1..], i - 1);
      }
    }
    if !quits {
      RestCompletes(env, ms, version, seen, choices);
      hide ShownAt, Completes, ChoseToQuit, ChoseOnce;
      if j: nat :| j < |rest| && ShownAt(env, rest, version, seen', choices[1..], j) && rest[j] == m {
        AtLater(env, ms, version, seen, choices, j + 1);
        assert ShownAt(env, ms, version, seen, choices, j + 1);
      }
    }
  }

  /**
   * The outcome of a launch: it quits exactly if the user chose to quit at some message that was shown;
   * exactly the ids put away are added to those seen; and exactly the shown messages are shown.
   */
  lemma {:induction false} ProcessExactly(env: Env, ms: seq<Message>, version: string, seen: set<string>, file: string,
      choices: seq<Choice>, id: string, m: Message)
    requires |choices| == |ms| && Completes(env, ms, version, seen, choices)
    ensures var o := Process(env, ms, version, seen, file, choices);
            && (o.quit <==> AnyQuit(env, ms, version, seen, choices))
            && (id in o.seen <==> id in seen || AnyOnce(env, ms, version, seen, choices, id))
            && (m in o.shown <==> AnyShown(env, ms, version, seen, choices, m))
    decreases |ms|
  {
    if ms != [] {
      AnyQuitUnfolds(env, ms, version, seen, choices);
      AnyOnceUnfolds(env, ms, version, seen, choices, id);
      AnyShownUnfolds(env, ms, version, seen, choices, m);
      AtFirst(env, ms, version, seen, choices);
      if Shows(ms[0], version, seen) {
        ShownIsChosen(env, ms, version, seen, choices, 0);
      }
      var seen' := SeenNext(ms[0], choices[0], version, seen);
      var marks := Shows(ms[0], version, seen) && Marks(ms[0], choices[0]);
      var file' := if marks then Join(env.order(seen')) else file;
      if !QuitAt(env, ms, version, seen, choices, 0) {
        ProcessExactly(env, ms[1..], version, seen', file', choices[1..], id, m);
      }
    }
  }

  /** Without a config of the right schema the launcher goes on at once and leaves the file as it is. */
  lemma FailsOpen(env: Env, v: Visit, file: string)
    requires VisitCompletes(env, v, file) && !(v.config.Some? && v.config.value.schema == 1)
    ensures var o := Launch(env, v, file); ExitCode(o) == 0 && o.file == file && o.shown == []
  {
  }

  /** The exit code tells whether the user chose to quit at a message that was shown. */
  lemma ExitIffQuit(env: Env, v: Visit, file: string)
    requires VisitCompletes(env, v, file)
    ensures var chose := AnyQuit(env, MessagesOf(v), v.version, Elements(Lines(file)), v.choices);
            ExitCode(Launch(env, v, file)) == if chose then 2 else 0
  {
    hide AnyQuit, AnyOnce, AnyShown;
    var m := Message("", None, Target("all", None, None, None, None, None), None, None, None, None);
    ProcessExactly(env, MessagesOf(v), v.version, Elements(Lines(file)), file, v.choices, "", m);
  }
}
