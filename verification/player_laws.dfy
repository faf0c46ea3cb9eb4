/** What the interpreter guarantees, and what it does not. */
module PlayerLaws {
  import opened Basics
  import opened SceneTypes
  import opened LabelIndex
  import opened Player

  /** A jump lands on a labelled step, so never on a goto or an end step. */
  lemma JumpTargetsAreLabelled(steps: seq<Step>, idx: int, target: string)
    ensures var r := GoTo(steps, idx, target);
            r == idx || (0 <= r < |steps| && !steps[r].Goto? && !steps[r].End?)
  {
    GoToLands(steps, idx, target);
  }

  /** From a step of a non-empty scene, `nextStep` stays on a step. */
  lemma NextStepInRange(steps: seq<Step>, idx: int, forced: Option<string>)
    requires 0 <= idx < |steps|
    ensures 0 <= NextStep(steps, idx, forced) < |steps|
  {
    if Forced(forced) {
      GoToLands(steps, idx, forced.value);
    }
  }

  /** Advancing without a label from the last step leaves the cursor there. */
  lemma NextStepClampsAtLast(steps: seq<Step>, forced: Option<string>)
    requires |steps| > 0 && !Forced(forced)
    ensures NextStep(steps, |steps| - 1, forced) == |steps| - 1
  {
  }

  lemma InitValid(scene: Scene)
    ensures Valid(scene, Init(scene))
  {
  }

  /** While mounted and with the step effect due, nothing is in flight. */
  lemma NoCallWhileEntryDue(scene: Scene, p: Player)
    requires Valid(scene, p) && !p.tornDown && p.entryDue
    ensures p.calls == map[] && !p.busy
  {
    assert forall g :: g in p.calls ==> false;
  }

  /** While mounted on a step other than a call, nothing is in flight. */
  lemma NoCallOffCallStep(scene: Scene, p: Player)
    requires Valid(scene, p) && !p.tornDown
    requires 0 <= p.idx < |scene.steps| && !scene.steps[p.idx].Call?
    ensures p.calls == map[] && !p.busy
  {
    assert forall g :: g in p.calls ==> false;
  }

  lemma EnterPreservesValid(scene: Scene, api: set<string>, p: Player)
    requires Valid(scene, p) && !p.tornDown && p.entryDue
    ensures Valid(scene, EnterStep(scene, api, p))
  {
    NoCallWhileEntryDue(scene, p);
    var q := EnterStep(scene, api, p);
    var steps := scene.steps;
    if 0 <= p.idx < |steps| {
      var s := steps[p.idx];
      NextStepInRange(steps, p.idx, NextOf(s));
      match s
      case Goto(target) =>
        assert q.calls == map[] && !q.busy;
      case SetFlag(_, _, _, next) =>
        assert q.calls == map[] && !q.busy;
      case Call(fn, args, _, next) =>
        if fn in api {
          assert q.calls == map[p.nextGen := PendingCall(fn, args, next, p.flags)];
          assert q.idx == p.idx && !q.entryDue && q.live == Some(p.nextGen);
        } else {
          assert q.calls == map[] && !q.busy;
        }
      case End =>
        assert q.calls == map[] && q.idx == p.idx;
      case Say(_, _, _, _) =>
        assert q.calls == map[] && q.idx == p.idx;
      case Choice(_, _, _) =>
        assert q.calls == map[] && q.idx == p.idx;
    }
  }

  /** Every event keeps the bookkeeping invariant. */
  lemma ApplyPreservesValid(scene: Scene, api: set<string>, p: Player, e: Event)
    requires Valid(scene, p)
    ensures Valid(scene, Apply(scene, api, p, e))
  {
    if !p.tornDown {
      match e
      case Enter =>
        if p.entryDue {
          EnterPreservesValid(scene, api, p);
        }
      case SayNext =>
        if Current(scene, p).Some? && Current(scene, p).value.Say? {
          NoCallOffCallStep(scene, p);
          NextStepInRange(scene.steps, p.idx, scene.steps[p.idx].next);
        }
      case Choose(i) =>
        if Current(scene, p).Some? && Current(scene, p).value.Choice? {
          NoCallOffCallStep(scene, p);
        }
      case CallSettled(g, writes, ok) =>
        if g in p.calls {
          assert p.live == Some(g);
          var rest := p.calls - {g};
          assert forall h :: h in rest ==> h == g && h != g;
          assert rest == map[];
          NextStepInRange(scene.steps, p.idx, p.calls[g].next);
        }
      case Teardown =>
    }
  }

  lemma {:induction false} RunPreservesValid(scene: Scene, api: set<string>, p: Player, events: seq<Event>)
    requires Valid(scene, p)
    ensures Valid(scene, Run(scene, api, p, events))
    decreases |events|
  {
    if |events| > 0 {
      ApplyPreservesValid(scene, api, p, events[0]);
      RunPreservesValid(scene, api, Apply(scene, api, p, events[0]), events[1..]);
    }
  }

  /** Whatever the host and the capabilities do, a non-empty scene's cursor
      stays on one of its steps, and while mounted at most one capability
      call is in flight, the one belonging to the mounted step. */
  lemma CursorAndCallsStayBounded(scene: Scene, api: set<string>, events: seq<Event>)
    ensures var p := Run(scene, api, Init(scene), events);
            && (|scene.steps| > 0 ==> 0 <= p.idx < |scene.steps|)
            && (!p.tornDown ==> |p.calls| <= 1)
            && (!p.tornDown && p.calls != map[] ==> p.live.Some? && p.live.value in p.calls)
  {
    InitValid(scene);
    RunPreservesValid(scene, api, Init(scene), events);
    var p := Run(scene, api, Init(scene), events);
    if !p.tornDown && p.calls != map[] {
      AtMostOneCallInFlight(scene, p);
    }
  }

  lemma AtMostOneCallInFlight(scene: Scene, p: Player)
    requires Valid(scene, p) && !p.tornDown && p.calls != map[]
    ensures p.live.Some? && p.live.value in p.calls
    ensures |p.calls| == 1
  {
    var g :| g in p.calls;
    assert p.live == Some(g);
    assert p.calls.Keys == {g};
  }

  /** Entering a set step writes its own flag and nothing else, on the latest
      store, then moves by its `next` rule. */
  lemma SetStepEntry(scene: Scene, api: set<string>, p: Player)
    requires !p.tornDown && p.entryDue
    requires 0 <= p.idx < |scene.steps| && scene.steps[p.idx].SetFlag?
    ensures var s := scene.steps[p.idx];
            var q := Apply(scene, api, p, Enter);
            && s.flag in q.flags && q.flags[s.flag] == s.value
            && (forall k :: k != s.flag ==> (k in q.flags <==> k in p.flags))
            && (forall k :: k != s.flag && k in p.flags ==> q.flags[k] == p.flags[k])
            && q.idx == NextStep(scene.steps, p.idx, s.next)
            && q.busy == p.busy && q.calls == p.calls && q.endCount == p.endCount
  {
  }

  /** Entering a call step with a known capability sets `busy` and records
      the call under the new generation, reading the flags as they stood;
      the cursor waits for the call to settle. */
  lemma CallStepEntry(scene: Scene, api: set<string>, p: Player)
    requires !p.tornDown && p.entryDue
    requires 0 <= p.idx < |scene.steps| && scene.steps[p.idx].Call?
    requires scene.steps[p.idx].fn in api
    ensures var s := scene.steps[p.idx];
            var q := Apply(scene, api, p, Enter);
            && q.busy && q.idx == p.idx && !q.entryDue && q.flags == p.flags
            && q.live == Some(p.nextGen) && p.nextGen in q.calls
            && q.calls[p.nextGen] == PendingCall(s.fn, s.args, s.next, p.flags)
  {
  }

  /** A call step whose capability is missing only warns: it advances at
      once with `busy` cleared. */
  lemma MissingCapabilityAdvances(scene: Scene, api: set<string>, p: Player)
    requires !p.tornDown && p.entryDue
    requires 0 <= p.idx < |scene.steps| && scene.steps[p.idx].Call?
    requires scene.steps[p.idx].fn !in api
    ensures var q := Apply(scene, api, p, Enter);
            && !q.busy && q.calls == p.calls && q.flags == p.flags
            && q.idx == NextStep(scene.steps, p.idx, scene.steps[p.idx].next)
  {
  }

  /** The settlement of a call advances in a `finally`: rejection and
      resolution lead to the same state. */
  lemma SettleIgnoresOutcome(scene: Scene, api: set<string>, p: Player, g: nat, writes: seq<FlagWrite>)
    ensures Apply(scene, api, p, CallSettled(g, writes, true))
         == Apply(scene, api, p, CallSettled(g, writes, false))
  {
  }

  /** The mounted call settling: its writes land, `busy` clears and the
      cursor moves by the call step's `next` rule. */
  lemma LiveSettleAdvances(scene: Scene, api: set<string>, p: Player, writes: seq<FlagWrite>, ok: bool)
    requires Valid(scene, p) && !p.tornDown
    requires p.live.Some? && p.live.value in p.calls
    ensures var q := Apply(scene, api, p, CallSettled(p.live.value, writes, ok));
            && !q.busy && q.calls == map[]
            && q.flags == ApplyWrites(p.flags, writes)
            && q.idx == NextStep(scene.steps, p.idx, NextOf(scene.steps[p.idx]))
  {
    var g := p.live.value;
    var rest := p.calls - {g};
    assert forall h :: h in rest ==> h == g && h != g;
    assert rest == map[];
  }

  /** After teardown nothing changes any more: no flag write, no cursor
      move, no completion signal. */
  lemma {:induction false} TeardownSilences(scene: Scene, api: set<string>, p: Player, events: seq<Event>)
    requires Valid(scene, p)
    ensures var t := Apply(scene, api, p, Teardown);
            Run(scene, api, t, events) == t && t.live.None? && t.tornDown
    decreases |events|
  {
    var t := Apply(scene, api, p, Teardown);
    if |events| > 0 {
      TornDownInert(scene, api, t, events[0]);
      TeardownSilences(scene, api, p, events[1..]);
    }
  }

  /** A torn-down player ignores any event. */
  lemma TornDownInert(scene: Scene, api: set<string>, p: Player, e: Event)
    requires p.tornDown
    ensures Apply(scene, api, p, e) == p
  {
  }

  /** Say and choice do nothing on entry but start a new generation. */
  lemma SayChoiceEntryInert(scene: Scene, api: set<string>, p: Player)
    requires !p.tornDown && p.entryDue
    requires 0 <= p.idx < |scene.steps|
    requires scene.steps[p.idx].Say? || scene.steps[p.idx].Choice?
    ensures var q := Apply(scene, api, p, Enter);
            && q.idx == p.idx && q.flags == p.flags && q.busy == p.busy
            && q.calls == p.calls && q.endCount == p.endCount
            && !q.entryDue && q.live == Some(p.nextGen)
  {
  }

  /** A choice exposes its options and no next button; the next button does
      nothing there. */
  lemma ChoiceIgnoresNext(scene: Scene, api: set<string>, p: Player)
    requires !p.tornDown && 0 <= p.idx < |scene.steps| && scene.steps[p.idx].Choice?
    ensures Apply(scene, api, p, SayNext) == p
    ensures ControlsOf(scene, p) == OptionButtons(scene.steps[p.idx].options)
  {
  }

  /** Clicking option `i` of a choice jumps to its `goto` label. */
  lemma ChooseFollowsOption(scene: Scene, api: set<string>, p: Player, i: int)
    requires !p.tornDown && 0 <= p.idx < |scene.steps| && scene.steps[p.idx].Choice?
    requires 0 <= i < |scene.steps[p.idx].options|
    ensures Apply(scene, api, p, Choose(i)).idx
         == GoTo(scene.steps, p.idx, scene.steps[p.idx].options[i].goto)
  {
    assert Current(scene, p) == Some(scene.steps[p.idx]);
  }

  /** The next button of a say moves the cursor by the step's `next` rule
      and changes nothing else. */
  lemma SayMoves(scene: Scene, api: set<string>, p: Player, r: int)
    requires !p.tornDown && 0 <= p.idx < |scene.steps| && scene.steps[p.idx].Say?
    requires NextStep(scene.steps, p.idx, scene.steps[p.idx].next) == r
    ensures var q := Apply(scene, api, p, SayNext);
            && q.idx == r && (q.entryDue <==> p.entryDue || r != p.idx)
            && q.flags == p.flags && q.calls == p.calls && q.busy == p.busy && q.live == p.live
            && q.nextGen == p.nextGen && q.endCount == p.endCount && !q.tornDown
  {
    assert Current(scene, p) == Some(scene.steps[p.idx]);
  }

  /** Clicking an option of a choice jumps to its label and changes nothing else. */
  lemma ChooseMoves(scene: Scene, api: set<string>, p: Player, i: int, r: int)
    requires !p.tornDown && 0 <= p.idx < |scene.steps| && scene.steps[p.idx].Choice?
    requires 0 <= i < |scene.steps[p.idx].options|
    requires GoTo(scene.steps, p.idx, scene.steps[p.idx].options[i].goto) == r
    ensures var q := Apply(scene, api, p, Choose(i));
            && q.idx == r && (q.entryDue <==> p.entryDue || r != p.idx)
            && q.flags == p.flags && q.calls == p.calls && q.busy == p.busy && q.live == p.live
            && q.nextGen == p.nextGen && q.endCount == p.endCount && !q.tornDown
  {
    assert Current(scene, p) == Some(scene.steps[p.idx]);
  }

  /** The mounted call settling moves the cursor by its step's `next` rule,
      clears `busy`, lands its writes and leaves the generation as it is. */
  lemma SettleMoves(scene: Scene, api: set<string>, p: Player, writes: seq<FlagWrite>, ok: bool, r: int)
    requires !p.tornDown && p.live.Some? && p.live.value in p.calls
    requires NextStep(scene.steps, p.idx, p.calls[p.live.value].next) == r
    ensures var q := Apply(scene, api, p, CallSettled(p.live.value, writes, ok));
            && q.idx == r && (q.entryDue <==> p.entryDue || r != p.idx) && !q.busy
            && q.flags == ApplyWrites(p.flags, writes) && q.calls == p.calls - {p.live.value}
            && q.live == p.live && q.nextGen == p.nextGen && q.endCount == p.endCount && !q.tornDown
  {
  }

  /** Off the end step, the cursor only moves by the current step's rules:
      its `next` rule, its goto target, or the clicked option's label; and
      `onEnd` is not called. */
  lemma CursorMovesByCurrentStep(scene: Scene, api: set<string>, p: Player, e: Event)
    requires Valid(scene, p) && 0 <= p.idx < |scene.steps| && !scene.steps[p.idx].End?
    ensures var q := Apply(scene, api, p, e);
            var s := scene.steps[p.idx];
            && q.endCount == p.endCount
            && (|| q.idx == p.idx
                || q.idx == NextStep(scene.steps, p.idx, NextOf(s))
                || (s.Goto? && q.idx == GoTo(scene.steps, p.idx, s.target))
                || (e.Choose? && s.Choice? && 0 <= e.option < |s.options|
                    && q.idx == GoTo(scene.steps, p.idx, s.options[e.option].goto)))
  {
    var s := scene.steps[p.idx];
    if !p.tornDown {
      assert Current(scene, p) == Some(s);
      match e
      case CallSettled(g, writes, ok) =>
        if g in p.calls && p.live == Some(g) {
          assert p.calls[g].next == NextOf(s);
        }
      case _ =>
    }
  }

  /** Only the rendered controls move the cursor: a host event that changes
      anything was a click on a next button or on an existing option. */
  lemma HostEventsNeedControls(scene: Scene, api: set<string>, p: Player, i: int)
    ensures Apply(scene, api, p, SayNext) != p ==>
              ControlsOf(scene, p).NextButton?
              && Apply(scene, api, p, SayNext).idx
                 == NextStep(scene.steps, p.idx, ControlsOf(scene, p).next)
    ensures Apply(scene, api, p, Choose(i)) != p ==>
              ControlsOf(scene, p).OptionButtons?
              && 0 <= i < |ControlsOf(scene, p).options|
              && Apply(scene, api, p, Choose(i)).idx
                 == GoTo(scene.steps, p.idx, ControlsOf(scene, p).options[i].goto)
  {
  }

  /** An end step calls `onEnd` and keeps the cursor. */
  lemma EndStepEntry(scene: Scene, api: set<string>, p: Player)
    requires !p.tornDown && p.entryDue
    requires 0 <= p.idx < |scene.steps| && scene.steps[p.idx].End?
    ensures var q := Apply(scene, api, p, Enter);
            q.endCount == p.endCount + 1 && q.idx == p.idx && !q.entryDue
  {
  }

  /** Once an end step has been entered, no event calls `onEnd` again or
      moves the cursor. */
  lemma {:induction false} EndSignalsOnce(scene: Scene, api: set<string>, p: Player, events: seq<Event>)
    requires Valid(scene, p) && !p.entryDue
    requires 0 <= p.idx < |scene.steps| && scene.steps[p.idx].End?
    ensures var q := Run(scene, api, p, events);
            q.endCount == p.endCount && q.idx == p.idx
    decreases |events|
  {
    if |events| > 0 {
      var q := Apply(scene, api, p, events[0]);
      if !p.tornDown {
        NoCallOffCallStep(scene, p);
      }
      assert q.endCount == p.endCount && q.idx == p.idx && !q.entryDue;
      ApplyPreservesValid(scene, api, p, events[0]);
      EndSignalsOnce(scene, api, q, events[1..]);
    }
  }

  /** The step effect depends only on the cursor: an event that leaves the
      cursor where it was does not make the step run again. */
  lemma SameCursorNoRerun(scene: Scene, api: set<string>, p: Player, e: Event)
    requires !p.entryDue
    requires Apply(scene, api, p, e).idx == p.idx
    ensures var q := Apply(scene, api, p, e);
            !q.entryDue && Apply(scene, api, q, Enter) == q
  {
  }

  /** The same for a step that jumps or advances onto itself on entry (a
      goto or set whose label resolves to its own position, an unresolved
      label, the clamp at the last step). */
  lemma SelfTransitionNoRerun(scene: Scene, api: set<string>, p: Player)
    requires !p.tornDown && p.entryDue
    requires Apply(scene, api, p, Enter).idx == p.idx
    ensures var q := Apply(scene, api, p, Enter);
            !q.entryDue && Apply(scene, api, q, Enter) == q
  {
  }
}
