/** The intro scene the starter page plays: three lines, a choice of three
    starters, one set step per starter, the grant call, a closing line and an
    end step. */
module Intro {
  import opened Basics
  import opened SceneTypes
  import opened LabelIndex
  import opened Player
  import opened PlayerLaws

  const Professor: Option<string> := Some("Professor B.")

  function Line(name: string, next: Option<string>, text: string): Step {
    Say(Professor, text, Some(name), next)
  }

  function Option3(caption: string, subtitle: string, icon: string, goto: string): ChoiceOption {
    ChoiceOption(caption, goto, None, Some(icon), Some(subtitle))
  }

  /** The three starters, in option order, with the slug each set step writes. */
  const StarterSlugs: seq<string> := ["javascript", "python", "java"]
  const PickLabels: seq<string> := ["pick-js", "pick-py", "pick-java"]

  const StarterOptions: seq<ChoiceOption> := [
    Option3("JavaScript", "Front-End • Common", "javascript", "pick-js"),
    Option3("Python", "Back-End • Common", "python", "pick-py"),
    Option3("Java", "Back-End • Common", "java", "pick-java")
  ]

  /** The closing line exactly as authored: its `next` names a label no step carries. */
  const DoneLine: Step :=
    Line("done-line", Some("end"), "Excelente escolha! Sua jornada começa agora. Vou te acompanhar nos primeiros passos.")

  const IntroSteps: seq<Step> := [
    Line("intro-1", Some("intro-2"), "Olá! Eu sou o Professor B. — bem-vindo(a) ao mundo das Linguagens!"),
    Line("intro-2", Some("intro-3"), "Aqui, programadores treinam linguagens, batalham e colaboram para criar soluções incríveis."),
    Line("intro-3", Some("starter-choice"), "Para iniciar sua jornada, escolha sua linguagem inicial."),
    Choice("Estas são três ótimas escolhas para começar. Qual delas te chama mais?", StarterOptions, Some("starter-choice")),
    SetFlag("starterSlug", Str("javascript"), Some("pick-js"), Some("grant-starter")),
    SetFlag("starterSlug", Str("python"), Some("pick-py"), Some("grant-starter")),
    SetFlag("starterSlug", Str("java"), Some("pick-java"), Some("grant-starter")),
    Call("grantStarter", None, Some("grant-starter"), Some("done-line")),
    DoneLine,
    End
  ]

  /** No initial flags: playback starts from an empty store. */
  const IntroScene: Scene := Scene(IntroSteps, None)

  /** The labels of positions 0 to 8, in order. */
  const IntroLabels: seq<string> := [
    "intro-1", "intro-2", "intro-3", "starter-choice",
    "pick-js", "pick-py", "pick-java", "grant-starter", "done-line"
  ]

  /** The nine labels are pairwise distinct and truthy, and none of them is "end". */
  lemma IntroLabelsDistinct()
    ensures |IntroLabels| == 9
    ensures forall i, j :: 0 <= i < j < 9 ==> IntroLabels[i] != IntroLabels[j]
    ensures forall i :: 0 <= i < 9 ==> IntroLabels[i] != ""
    ensures "end" !in IntroLabels
  {
    assert IntroLabels[0][6] != IntroLabels[1][6];
    assert IntroLabels[0][6] != IntroLabels[2][6];
    assert IntroLabels[1][6] != IntroLabels[2][6];
    assert IntroLabels[4][5] != IntroLabels[5][5];
    assert IntroLabels[4][6] != IntroLabels[6][6];
    assert IntroLabels[5][6] != IntroLabels[6][6];
    assert forall i :: 0 <= i < 9 ==> |IntroLabels[i]| > 3;
  }

  /** What playback of the intro depends on: the nine labels of positions 0
      to 8, the three starter slugs in option order, and the closing line's
      `next`. */
  datatype Shape = Shape(labels: seq<string>, slugs: seq<string>, doneNext: Option<string>)

  /** The intro as authored, and as evidently intended. */
  const AuthoredShape: Shape := Shape(IntroLabels, StarterSlugs, Some("end"))
  const CorrectedShape: Shape := Shape(IntroLabels, StarterSlugs, None)

  /** The structure of the intro: three chained lines, the choice whose
      options lead to the three set steps, each set step writing its slug
      and leading to the grant call, the grant call leading to the closing
      line, and the end step; positions 0 to 8 carry pairwise distinct
      truthy labels. */
  ghost predicate Shaped(steps: seq<Step>, sh: Shape) {
    && |steps| == 10 && steps[9] == End
    && |sh.labels| == 9 && |sh.slugs| == 3
    && (forall i, j :: 0 <= i < j < 9 ==> sh.labels[i] != sh.labels[j])
    && (forall i :: 0 <= i < 9 ==> sh.labels[i] != "")
    && (forall i :: 0 <= i < 3 ==>
          steps[i].Say? && steps[i].stepLabel == Some(sh.labels[i]) && steps[i].next == Some(sh.labels[i + 1]))
    && steps[3].Choice? && steps[3].stepLabel == Some(sh.labels[3]) && |steps[3].options| == 3
    && (forall k :: 0 <= k < 3 ==> steps[3].options[k].goto == sh.labels[4 + k])
    && (forall i :: 4 <= i < 7 ==>
          steps[i] == SetFlag("starterSlug", Str(sh.slugs[i - 4]), Some(sh.labels[i]), Some(sh.labels[7])))
    && steps[7] == Call("grantStarter", None, Some(sh.labels[7]), Some(sh.labels[8]))
    && steps[8].Say? && steps[8].stepLabel == Some(sh.labels[8]) && steps[8].next == sh.doneNext
  }

  /** Positions 0 to 8 are indexed under their labels; the end step under none. */
  lemma ShapedKeys(steps: seq<Step>, sh: Shape)
    requires Shaped(steps, sh)
    ensures forall i :: 0 <= i < 9 ==> IndexKey(steps[i]) == Some(sh.labels[i])
    ensures forall i :: 9 <= i < |steps| ==> IndexKey(steps[i]) == None
  {
    forall i | 0 <= i < 9
      ensures IndexKey(steps[i]) == Some(sh.labels[i])
    {
      if 4 <= i < 7 {
        assert steps[i] == SetFlag("starterSlug", Str(sh.slugs[i - 4]), Some(sh.labels[i]), Some(sh.labels[7]));
      }
    }
  }

  /** The intro as authored has that structure, with "end" after the closing line. */
  lemma IntroIsShaped()
    ensures Shaped(IntroSteps, AuthoredShape)
  {
    IntroLabelsDistinct();
    IntroLinesShaped();
    IntroSetsShaped();
    IntroTailShaped();
  }

  /** The three lines of the intro chain to each other and to the choice. */
  lemma IntroLinesShaped()
    ensures forall i :: 0 <= i < 3 ==>
              IntroSteps[i].Say? && IntroSteps[i].stepLabel == Some(IntroLabels[i])
              && IntroSteps[i].next == Some(IntroLabels[i + 1])
  {
  }

  /** The three set steps write the three slugs and lead to the grant call. */
  lemma IntroSetsShaped()
    ensures forall i :: 4 <= i < 7 ==>
              IntroSteps[i] == SetFlag("starterSlug", Str(StarterSlugs[i - 4]), Some(IntroLabels[i]), Some(IntroLabels[7]))
  {
  }

  /** The choice's options, the grant call, the closing line and the end step. */
  lemma IntroTailShaped()
    ensures |IntroSteps| == 10 && IntroSteps[9] == End
    ensures IntroSteps[3].Choice? && IntroSteps[3].stepLabel == Some(IntroLabels[3]) && |IntroSteps[3].options| == 3
    ensures forall k :: 0 <= k < 3 ==> IntroSteps[3].options[k].goto == IntroLabels[4 + k]
    ensures IntroSteps[7] == Call("grantStarter", None, Some(IntroLabels[7]), Some(IntroLabels[8]))
    ensures IntroSteps[8].Say? && IntroSteps[8].stepLabel == Some(IntroLabels[8]) && IntroSteps[8].next == Some("end")
  {
  }

  /** The closing line as evidently intended: no `next`, so it falls through
      to the end step. */
  const DoneLineCorrected: Step :=
    Say(Professor, DoneLine.text, Some("done-line"), None)

  const CorrectedSteps: seq<Step> := IntroSteps[8 := DoneLineCorrected]
  const CorrectedScene: Scene := Scene(CorrectedSteps, None)

  /** The corrected intro has the same structure, with nothing after the closing line. */
  lemma CorrectedIsShaped()
    ensures Shaped(CorrectedSteps, CorrectedShape)
  {
    IntroLabelsDistinct();
    IntroLinesShaped();
    IntroSetsShaped();
    IntroTailShaped();
    assert forall i :: 0 <= i < 10 && i != 8 ==> CorrectedSteps[i] == IntroSteps[i];
  }

  /** In a scene of that structure each label indexes its own position and
      nothing else is indexed, so the end step is no jump target. */
  lemma ShapedIndex(steps: seq<Step>, sh: Shape)
    requires Shaped(steps, sh)
    ensures forall i :: 0 <= i < 9 ==>
              sh.labels[i] in BuildLabelIndex(steps) && BuildLabelIndex(steps)[sh.labels[i]] == i
    ensures forall l :: l in BuildLabelIndex(steps) ==> l in sh.labels
  {
    ShapedKeys(steps, sh);
    IndexOfDistinctLabels(steps, sh.labels);
  }

  /** `goTo` with the label of position `i` lands on `i`. */
  lemma ShapedGoTo(steps: seq<Step>, sh: Shape, idx: int, i: int)
    requires Shaped(steps, sh) && 0 <= i < 9
    ensures GoTo(steps, idx, sh.labels[i]) == i
  {
    ShapedIndex(steps, sh);
  }

  /** `goTo` with any other label stays put. */
  lemma ShapedGoToUnknown(steps: seq<Step>, sh: Shape, idx: int, target: string)
    requires Shaped(steps, sh) && target !in sh.labels
    ensures GoTo(steps, idx, target) == idx
  {
    ShapedIndex(steps, sh);
  }

  /** Jumps from a step before the end never land on the end step. */
  lemma ShapedJumpsAvoidEnd(steps: seq<Step>, sh: Shape, idx: int, target: string)
    requires Shaped(steps, sh) && 0 <= idx <= 8
    ensures 0 <= GoTo(steps, idx, target) <= 8
  {
    var r := GoTo(steps, idx, target);
    GoToLands(steps, idx, target);
    if r != idx {
      ShapedKeys(steps, sh);
      assert LabelOf(steps[r]).Some?;
    }
  }

  /** A mounted state with nothing in flight and no `onEnd` yet: the cursor
      at `idx`, the step effect due or not, `gen` step effects run so far
      (the last of them still mounted), and the given flags. */
  predicate Idle(q: Player, idx: int, due: bool, gen: nat, flags: Flags) {
    && !q.tornDown && q.idx == idx && q.entryDue == due && q.nextGen == gen
    && q.live == (if gen == 0 then None else Some(gen - 1))
    && !q.busy && q.calls == map[] && q.endCount == 0 && q.flags == flags
  }

  /** Entering one of the three lines, the choice or the closing line only
      starts a new generation. */
  lemma EnterWaits(scene: Scene, sh: Shape, api: set<string>, p: Player, i: int, g: nat, f: Flags)
    requires Shaped(scene.steps, sh) && Idle(p, i, true, g, f) && (0 <= i <= 3 || i == 8)
    ensures Idle(Apply(scene, api, p, Enter), i, false, g + 1, f)
  {
    assert scene.steps[i].Say? || scene.steps[i].Choice?;
  }

  /** The next button on one of the three lines moves to the following position. */
  lemma SayNextAdvances(scene: Scene, sh: Shape, api: set<string>, p: Player, i: int, g: nat, f: Flags)
    requires Shaped(scene.steps, sh) && Idle(p, i, false, g, f) && 0 <= i < 3
    ensures Idle(Apply(scene, api, p, SayNext), i + 1, true, g, f)
  {
    ShapedLineNext(scene.steps, sh, i);
    SayMoves(scene, api, p, i + 1);
  }

  /** Each of the three lines is a say whose `next` leads to the following position. */
  lemma ShapedLineNext(steps: seq<Step>, sh: Shape, i: int)
    requires Shaped(steps, sh) && 0 <= i < 3
    ensures 0 <= i < |steps| && steps[i].Say? && NextStep(steps, i, steps[i].next) == i + 1
  {
    ShapedGoTo(steps, sh, i, i + 1);
  }

  /** Clicking option `k` of the choice moves to the set step of starter `k`. */
  lemma ChooseStarter(scene: Scene, sh: Shape, api: set<string>, p: Player, k: int, g: nat, f: Flags)
    requires Shaped(scene.steps, sh) && Idle(p, 3, false, g, f) && 0 <= k < 3
    ensures Idle(Apply(scene, api, p, Choose(k)), 4 + k, true, g, f)
  {
    ShapedGoTo(scene.steps, sh, 3, 4 + k);
    ChooseMoves(scene, api, p, k, 4 + k);
  }

  /** Entering the set step of starter `k` writes its slug and moves to the grant call. */
  lemma SetStarter(scene: Scene, sh: Shape, api: set<string>, p: Player, k: int, g: nat, f: Flags)
    requires Shaped(scene.steps, sh) && Idle(p, 4 + k, true, g, f) && 0 <= k < 3
    ensures Idle(Apply(scene, api, p, Enter), 7, true, g + 1, f["starterSlug" := Str(sh.slugs[k])])
  {
    ShapedSetStep(scene.steps, sh, k);
    assert Apply(scene, api, p, Enter) == EnterStep(scene, api, p);
  }

  /** The set step of starter `k` writes its slug and leads to the grant call. */
  lemma ShapedSetStep(steps: seq<Step>, sh: Shape, k: int)
    requires Shaped(steps, sh) && 0 <= k < 3
    ensures 4 + k < |steps|
    ensures steps[4 + k] == SetFlag("starterSlug", Str(sh.slugs[k]), Some(sh.labels[4 + k]), Some(sh.labels[7]))
    ensures NextStep(steps, 4 + k, Some(sh.labels[7])) == 7
  {
    ShapedGoTo(steps, sh, 4 + k, 7);
  }

  /** Entering the grant call, when the capability exists, starts it under
      the new generation with the current flags as its snapshot and the
      closing line as its successor; the cursor waits. */
  lemma GrantEnter(scene: Scene, sh: Shape, api: set<string>, p: Player, g: nat, f: Flags)
    requires Shaped(scene.steps, sh) && Idle(p, 7, true, g, f) && "grantStarter" in api
    ensures var q := Apply(scene, api, p, Enter);
            && !q.tornDown && q.idx == 7 && !q.entryDue && q.busy
            && q.live == Some(g) && q.nextGen == g + 1 && q.endCount == 0 && q.flags == f
            && q.calls == map[g := PendingCall("grantStarter", None, Some(sh.labels[8]), f)]
  {
  }

  /** The live grant call settling, resolved or rejected, moves to the
      closing line with nothing left in flight. */
  lemma GrantSettles(scene: Scene, sh: Shape, api: set<string>, p: Player, writes: seq<FlagWrite>, ok: bool)
    requires Shaped(scene.steps, sh)
    requires !p.tornDown && p.idx == 7 && !p.entryDue && p.live.Some? && p.live.value in p.calls
    requires p.calls[p.live.value].next == Some(sh.labels[8])
    ensures var q := Apply(scene, api, p, CallSettled(p.live.value, writes, ok));
            && !q.tornDown && q.idx == 8 && q.entryDue && !q.busy
            && q.calls == p.calls - {p.live.value} && q.live == p.live && q.nextGen == p.nextGen
            && q.endCount == p.endCount && q.flags == ApplyWrites(p.flags, writes)
  {
    ShapedGoTo(scene.steps, sh, 7, 8);
    SettleMoves(scene, api, p, writes, ok, 8);
  }

  /** One event, unfolded. */
  lemma RunCons(scene: Scene, api: set<string>, p: Player, e: Event, rest: seq<Event>)
    ensures Run(scene, api, p, [e] + rest) == Run(scene, api, Apply(scene, api, p, e), rest)
  {
    assert ([e] + rest)[0] == e && ([e] + rest)[1..] == rest;
  }

  /** Two runs, one after the other. */
  lemma {:induction false} RunAppend(scene: Scene, api: set<string>, p: Player, a: seq<Event>, b: seq<Event>)
    ensures Run(scene, api, p, a + b) == Run(scene, api, Run(scene, api, p, a), b)
    decreases |a|
  {
    if |a| > 0 {
      assert (a + b)[0] == a[0] && (a + b)[1..] == a[1..] + b;
      RunAppend(scene, api, Apply(scene, api, p, a[0]), a[1..], b);
    } else {
      assert a + b == b;
    }
  }

  /** Reading one of the three lines: its step effect runs, then its next
      button is pressed. */
  lemma ReadLine(scene: Scene, sh: Shape, api: set<string>, p: Player, i: int, g: nat, f: Flags)
    requires Shaped(scene.steps, sh) && Idle(p, i, true, g, f) && 0 <= i < 3
    ensures Idle(Run(scene, api, p, LineEvents), i + 1, true, g + 1, f)
  {
    EnterWaits(scene, sh, api, p, i, g, f);
    var p1 := Apply(scene, api, p, Enter);
    SayNextAdvances(scene, sh, api, p1, i, g + 1, f);
    RunCons(scene, api, p, Enter, [SayNext]);
    RunCons(scene, api, p1, SayNext, []);
  }

  /** The events that read one line: its step effect, then the next button. */
  const LineEvents: seq<Event> := [Enter, SayNext]

  /** The three lines, read in turn from the start. */
  const ReadLines: seq<Event> := LineEvents + LineEvents + LineEvents

  lemma ReadAllLines(scene: Scene, sh: Shape, api: set<string>, p: Player, f: Flags)
    requires Shaped(scene.steps, sh) && Idle(p, 0, true, 0, f)
    ensures Idle(Run(scene, api, p, ReadLines), 3, true, 3, f)
  {
    ReadLine(scene, sh, api, p, 0, 0, f);
    var p1 := Run(scene, api, p, LineEvents);
    ReadLine(scene, sh, api, p1, 1, 1, f);
    var p2 := Run(scene, api, p1, LineEvents);
    ReadLine(scene, sh, api, p2, 2, 2, f);
    RunAppend(scene, api, p, LineEvents, LineEvents);
    RunAppend(scene, api, p, LineEvents + LineEvents, LineEvents);
  }

  /** The events after the lines when option `k` is clicked: the choice's
      step effect, the click, the set step's effect, the grant call's effect. */
  function PickStarter(k: int): seq<Event> {
    [Enter, Choose(k), Enter, Enter]
  }

  /** From the choice, clicking option `k` starts the grant call under the
      third generation after it, with the slug of starter `k` added to the
      flags the call reads. */
  lemma PickReachesGrant(scene: Scene, sh: Shape, api: set<string>, p: Player, k: int, g: nat, f: Flags)
    requires Shaped(scene.steps, sh) && Idle(p, 3, true, g, f) && 0 <= k < 3 && "grantStarter" in api
    ensures var q := Run(scene, api, p, PickStarter(k));
            && !q.tornDown && q.idx == 7 && !q.entryDue && q.busy
            && q.live == Some(g + 2) && q.nextGen == g + 3 && q.endCount == 0
            && q.flags == f["starterSlug" := Str(sh.slugs[k])]
            && q.calls == map[g + 2 := PendingCall("grantStarter", None, Some(sh.labels[8]), f["starterSlug" := Str(sh.slugs[k])])]
  {
    var p1 := Apply(scene, api, p, Enter);
    EnterWaits(scene, sh, api, p, 3, g, f);
    var p2 := Apply(scene, api, p1, Choose(k));
    ChooseStarter(scene, sh, api, p1, k, g + 1, f);
    var p3 := Apply(scene, api, p2, Enter);
    SetStarter(scene, sh, api, p2, k, g + 1, f);
    GrantEnter(scene, sh, api, p3, g + 2, f["starterSlug" := Str(sh.slugs[k])]);
    RunCons(scene, api, p, Enter, [Choose(k), Enter, Enter]);
    RunCons(scene, api, p1, Choose(k), [Enter, Enter]);
    RunCons(scene, api, p2, Enter, [Enter]);
    RunCons(scene, api, p3, Enter, []);
  }

  /** The events that play the intro up to the grant call when option `k` is
      clicked. */
  function PathToGrant(k: int): seq<Event> {
    ReadLines + PickStarter(k)
  }

  /** In a scene of the intro's structure with no initial flags, clicking
      option `k` starts the grant call (generation 5) with a snapshot
      holding exactly the slug of starter `k`. */
  lemma ShapedReachesGrant(scene: Scene, sh: Shape, api: set<string>, k: int)
    requires Shaped(scene.steps, sh) && scene.initFlags.None?
    requires 0 <= k < 3 && "grantStarter" in api
    ensures var p := Run(scene, api, Init(scene), PathToGrant(k));
            && p.idx == 7 && p.busy && !p.entryDue && !p.tornDown && p.endCount == 0
            && p.live == Some(5) && p.nextGen == 6
            && p.flags == map["starterSlug" := Str(sh.slugs[k])]
            && p.calls == map[5 := PendingCall("grantStarter", None, Some(sh.labels[8]), map["starterSlug" := Str(sh.slugs[k])])]
  {
    var f: Flags := map[];
    var p0 := Init(scene);
    assert Idle(p0, 0, true, 0, f);
    ReadAllLines(scene, sh, api, p0, f);
    PickReachesGrant(scene, sh, api, Run(scene, api, p0, ReadLines), k, 3, f);
    RunAppend(scene, api, p0, ReadLines, PickStarter(k));
    assert f["starterSlug" := Str(sh.slugs[k])] == map["starterSlug" := Str(sh.slugs[k])];
  }

  /** States that stand before the end step and have never called `onEnd`. */
  ghost predicate BeforeEnd(scene: Scene, p: Player) {
    Valid(scene, p) && 0 <= p.idx <= 8 && p.endCount == 0
  }

  /** With a truthy `next` on the closing line, the rules of every step
      before the end (its `next`, its options) lead to a step before the end. */
  lemma ShapedRulesAvoidEnd(steps: seq<Step>, sh: Shape, i: int)
    requires Shaped(steps, sh) && Forced(sh.doneNext) && 0 <= i <= 8
    ensures !steps[i].End? && !steps[i].Goto?
    ensures 0 <= NextStep(steps, i, NextOf(steps[i])) <= 8
    ensures steps[i].Choice? ==>
              forall k :: 0 <= k < |steps[i].options| ==> 0 <= GoTo(steps, i, steps[i].options[k].goto) <= 8
  {
    var s := steps[i];
    if 4 <= i < 7 {
      assert s == SetFlag("starterSlug", Str(sh.slugs[i - 4]), Some(sh.labels[i]), Some(sh.labels[7]));
    }
    assert NextOf(steps[8]) == sh.doneNext;
    if Forced(NextOf(s)) {
      ShapedJumpsAvoidEnd(steps, sh, i, NextOf(s).value);
    }
    if s.Choice? {
      forall k | 0 <= k < |s.options| ensures 0 <= GoTo(steps, i, s.options[k].goto) <= 8 {
        ShapedJumpsAvoidEnd(steps, sh, i, s.options[k].goto);
      }
    }
  }

  /** With a truthy `next` on the closing line, no event moves a state before
      the end onto the end step. */
  lemma ShapedStepStaysBeforeEnd(scene: Scene, sh: Shape, api: set<string>, p: Player, e: Event)
    requires Shaped(scene.steps, sh) && Forced(sh.doneNext) && BeforeEnd(scene, p)
    ensures BeforeEnd(scene, Apply(scene, api, p, e))
  {
    ShapedRulesAvoidEnd(scene.steps, sh, p.idx);
    ApplyPreservesValid(scene, api, p, e);
    CursorMovesByCurrentStep(scene, api, p, e);
  }

  /** With a truthy `next` on the closing line, a run from a state before the
      end never reaches the end step and never calls `onEnd`. */
  lemma {:induction false} ShapedNeverEnds(scene: Scene, sh: Shape, api: set<string>, p: Player, events: seq<Event>)
    requires Shaped(scene.steps, sh) && Forced(sh.doneNext) && BeforeEnd(scene, p)
    ensures BeforeEnd(scene, Run(scene, api, p, events))
    decreases |events|
  {
    if |events| > 0 {
      ShapedStepStaysBeforeEnd(scene, sh, api, p, events[0]);
      ShapedNeverEnds(scene, sh, api, Apply(scene, api, p, events[0]), events[1..]);
    }
  }

  /** When the closing line's `next` names no label, its next button leaves
      the player as it is. */
  lemma ShapedDoneLineStays(scene: Scene, sh: Shape, api: set<string>, p: Player)
    requires Shaped(scene.steps, sh) && Forced(sh.doneNext) && sh.doneNext.value !in sh.labels
    requires !p.tornDown && p.idx == 8
    ensures Apply(scene, api, p, SayNext) == p
  {
    assert Current(scene, p) == Some(scene.steps[8]);
    ShapedGoToUnknown(scene.steps, sh, 8, sh.doneNext.value);
  }

  /** With nothing after the closing line, its next button falls through to
      the end step, and entering that calls `onEnd`. */
  lemma ShapedDoneLineEnds(scene: Scene, sh: Shape, api: set<string>, p: Player, g: nat, f: Flags)
    requires Shaped(scene.steps, sh) && sh.doneNext.None? && Idle(p, 8, false, g, f)
    ensures var q := Apply(scene, api, p, SayNext);
            && Idle(q, 9, true, g, f)
            && Apply(scene, api, q, Enter).idx == 9
            && Apply(scene, api, q, Enter).endCount == 1
  {
    assert Current(scene, p) == Some(scene.steps[8]);
  }

  /** The events that finish the intro once the grant call is in flight: the
      call settles, the closing line is entered and its next button pressed,
      and the step after it is entered. */
  function PathToEnd(writes: seq<FlagWrite>, ok: bool): seq<Event> {
    [CallSettled(5, writes, ok), Enter, SayNext, Enter]
  }

  /** With nothing after the closing line, playing the intro through the
      grant call and the closing line calls `onEnd` exactly once, whichever
      starter is chosen and however the grant call ends. */
  lemma ShapedIntroEnds(scene: Scene, sh: Shape, api: set<string>, k: int, writes: seq<FlagWrite>, ok: bool)
    requires Shaped(scene.steps, sh) && sh.doneNext.None? && scene.initFlags.None?
    requires 0 <= k < 3 && "grantStarter" in api
    ensures var p := Run(scene, api, Init(scene), PathToGrant(k) + PathToEnd(writes, ok));
            p.idx == 9 && p.endCount == 1
  {
    ShapedReachesGrant(scene, sh, api, k);
    var p := Run(scene, api, Init(scene), PathToGrant(k));
    RunAppend(scene, api, Init(scene), PathToGrant(k), PathToEnd(writes, ok));
    GrantSettles(scene, sh, api, p, writes, ok);
    var q1 := Apply(scene, api, p, CallSettled(5, writes, ok));
    var f := q1.flags;
    assert Idle(q1, 8, true, 6, f);
    EnterWaits(scene, sh, api, q1, 8, 6, f);
    var q2 := Apply(scene, api, q1, Enter);
    ShapedDoneLineEnds(scene, sh, api, q2, 7, f);
    var q3 := Apply(scene, api, q2, SayNext);
    RunCons(scene, api, p, CallSettled(5, writes, ok), [Enter, SayNext, Enter]);
    RunCons(scene, api, q1, Enter, [SayNext, Enter]);
    RunCons(scene, api, q2, SayNext, [Enter]);
    RunCons(scene, api, q3, Enter, []);
  }

  /** Playing the intro and clicking option `k` starts the grant call with a
      snapshot holding exactly the slug of starter `k`, and once the call
      settles, resolved or rejected, the cursor reaches the closing line. */
  lemma GrantCallSeesChoice(api: set<string>, k: int, writes: seq<FlagWrite>, ok: bool)
    requires 0 <= k < 3 && "grantStarter" in api
    ensures var p := Run(IntroScene, api, Init(IntroScene), PathToGrant(k));
            && p.idx == 7 && p.busy && p.live == Some(5) && 5 in p.calls
            && p.calls[5].snapshot == map["starterSlug" := Str(StarterSlugs[k])]
            && p.flags == p.calls[5].snapshot
            && Apply(IntroScene, api, p, CallSettled(5, writes, ok)).idx == 8
            && Apply(IntroScene, api, p, CallSettled(5, writes, ok)).flags == ApplyWrites(p.flags, writes)
  {
    IntroIsShaped();
    ShapedReachesGrant(IntroScene, AuthoredShape, api, k);
    var p := Run(IntroScene, api, Init(IntroScene), PathToGrant(k));
    GrantSettles(IntroScene, AuthoredShape, api, p, writes, ok);
  }

  /** As authored, the intro never reaches its end step: `onEnd` is never
      called, whatever the player clicks and however the grant call ends. */
  lemma IntroNeverEnds(api: set<string>, events: seq<Event>)
    ensures Run(IntroScene, api, Init(IntroScene), events).endCount == 0
    ensures Run(IntroScene, api, Init(IntroScene), events).idx <= 8
  {
    IntroIsShaped();
    InitValid(IntroScene);
    ShapedNeverEnds(IntroScene, AuthoredShape, api, Init(IntroScene), events);
  }

  /** As authored, the next button on the closing line leaves the player as it is. */
  lemma DoneLineNextStays(api: set<string>, p: Player)
    requires !p.tornDown && p.idx == 8
    ensures Apply(IntroScene, api, p, SayNext) == p
  {
    IntroIsShaped();
    IntroLabelsDistinct();
    ShapedDoneLineStays(IntroScene, AuthoredShape, api, p);
  }

  /** With the corrected closing line, playing the intro through the grant
      call and the closing line calls `onEnd` exactly once. */
  lemma CorrectedIntroEnds(api: set<string>, k: int, writes: seq<FlagWrite>, ok: bool)
    requires 0 <= k < 3 && "grantStarter" in api
    ensures var p := Run(CorrectedScene, api, Init(CorrectedScene), PathToGrant(k) + PathToEnd(writes, ok));
            p.idx == 9 && p.endCount == 1
  {
    CorrectedIsShaped();
    ShapedIntroEnds(CorrectedScene, CorrectedShape, api, k, writes, ok);
  }
}
