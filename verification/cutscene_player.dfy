/** The cutscene interpreter: cursor moves, the per-step entry effect, host
    events, and the generation bookkeeping that stands for each effect's
    `mounted` flag. */
module Player {
  import opened Basics
  import opened SceneTypes
  import opened LabelIndex

  /** One flag write issued by a capability through `setFlag`. */
  datatype FlagWrite = FlagWrite(key: string, value: Value)

  /** A capability call awaiting settlement: its step's successor label, the
      arguments it was given, and the flags its `getFlag` reads (those of the
      render in which the step was entered). */
  datatype PendingCall = PendingCall(fn: string, args: Option<Value>, next: Option<string>, snapshot: Flags)

  /** Interpreter state.
      - `idx`: the cursor.
      - `flags`: the flag store.
      - `busy`: set while a call step runs.
      - `live`: the generation whose step effect is still mounted, if any.
      - `nextGen`: how many step effects have run.
      - `entryDue`: the cursor changed since the step effect last ran.
      - `calls`: in-flight capability calls, by the generation that issued them.
      - `endCount`: how many times `onEnd` was called.
      - `tornDown`: the host unmounted the player. */
  datatype Player = Player(
    idx: int,
    flags: Flags,
    busy: bool,
    live: Option<nat>,
    nextGen: nat,
    entryDue: bool,
    calls: map<nat, PendingCall>,
    endCount: nat,
    tornDown: bool)

  /** What can happen to a player: the step effect running after a cursor
      change, the say step's next button, a click on a choice option, a
      capability call settling (with the flag writes it made, and whether it
      resolved), and unmounting. */
  datatype Event =
    | Enter
    | SayNext
    | Choose(option: int)
    | CallSettled(gen: nat, writes: seq<FlagWrite>, ok: bool)
    | Teardown

  /** The controls rendered for the current step. */
  datatype Controls =
    | Nothing
    | Waiting(processing: bool)
    | NextButton(next: Option<string>)
    | OptionButtons(options: seq<ChoiceOption>)

  /** Playback starts at step 0 with the scene's initial flags (or none), and
      the step effect due. */
  function Init(scene: Scene): (p: Player)
    ensures p.idx == 0 && p.entryDue && !p.busy && !p.tornDown
    ensures p.calls == map[] && p.endCount == 0 && p.live.None?
    ensures scene.initFlags.None? ==> p.flags == map[]
    ensures scene.initFlags.Some? ==> p.flags == scene.initFlags.value
  {
    Player(0, scene.initFlags.GetOr(map[]), false, None, 0, true, map[], 0, false)
  }

  /** `setFlag`: a functional update on the latest store. */
  function SetFlag(flags: Flags, k: string, v: Value): (r: Flags)
    ensures k in r && r[k] == v
    ensures forall j :: j != k ==> (j in r <==> j in flags)
    ensures forall j :: j != k && j in flags ==> r[j] == flags[j]
  {
    flags[k := v]
  }

  /** The capability's writes, applied in order. */
  function ApplyWrites(flags: Flags, writes: seq<FlagWrite>): Flags
    decreases |writes|
  {
    if |writes| == 0 then flags
    else
      var last := writes[|writes| - 1];
      SetFlag(ApplyWrites(flags, writes[..|writes| - 1]), last.key, last.value)
  }

  /** Flags no write touches keep their values; the last write wins. */
  lemma {:induction false} ApplyWritesFrame(flags: Flags, writes: seq<FlagWrite>)
    ensures var r := ApplyWrites(flags, writes);
            && (forall k :: (forall w :: w in writes ==> w.key != k) ==> (k in r <==> k in flags))
            && (forall k :: k in flags && (forall w :: w in writes ==> w.key != k) ==> k in r && r[k] == flags[k])
            && (|writes| > 0 ==> writes[|writes| - 1].key in r && r[writes[|writes| - 1].key] == writes[|writes| - 1].value)
    decreases |writes|
  {
    if |writes| > 0 {
      var front := writes[..|writes| - 1];
      assert forall w :: w in front ==> w in writes;
      ApplyWritesFrame(flags, front);
    }
  }

  /** `goTo`: jump to the position the label index records for `target`, or
      stay put when it records none. */
  function GoTo(steps: seq<Step>, idx: int, target: string): int {
    var labels := BuildLabelIndex(steps);
    if target in labels then labels[target] else idx
  }

  /** A jump to a label no step carries stays put; otherwise it lands on the
      last step carrying it. */
  lemma GoToLands(steps: seq<Step>, idx: int, target: string)
    ensures var r := GoTo(steps, idx, target);
            && (!Labelled(steps, target) ==> r == idx)
            && (Labelled(steps, target) ==>
                  0 <= r < |steps| && LabelOf(steps[r]) == Some(target)
                  && forall j :: r < j < |steps| ==> LabelOf(steps[j]) != Some(target))
  {
  }

  /** A forced label counts only when truthy. */
  predicate Forced(next: Option<string>) {
    next.Some? && next.value != ""
  }

  /** `nextStep`: a truthy forced label jumps through `goTo`; otherwise the
      cursor advances by one, clamped to the last step. */
  function NextStep(steps: seq<Step>, idx: int, forced: Option<string>): (r: int)
    ensures Forced(forced) ==> r == GoTo(steps, idx, forced.value)
    ensures !Forced(forced) && idx + 1 < |steps| ==> r == idx + 1
    ensures !Forced(forced) && idx + 1 >= |steps| ==> r == |steps| - 1
  {
    if Forced(forced) then GoTo(steps, idx, forced.value)
    else Min(idx + 1, |steps| - 1)
  }

  /** A cursor write; the step effect is due again only if the value changed. */
  function MoveTo(p: Player, i: int): (q: Player)
    ensures q.idx == i
    ensures q.entryDue <==> p.entryDue || i != p.idx
  {
    p.(idx := i, entryDue := p.entryDue || i != p.idx)
  }

  /** The step effect, run when the cursor has changed: the previous
      generation is unmounted, a new one starts, and the step at the cursor
      is executed if it is a goto, set, call or end; say and choice wait for
      the host. `api` names the capabilities that exist. */
  function EnterStep(scene: Scene, api: set<string>, p: Player): (q: Player)
  {
    var steps := scene.steps;
    var g := p.nextGen;
    var started := p.(nextGen := g + 1, entryDue := false, live := Some(g));
    if p.idx >= |steps| then
      started.(live := None, endCount := p.endCount + 1)
    else if p.idx < 0 then
      started
    else
      match steps[p.idx]
      case Goto(target) =>
        MoveTo(started, GoTo(steps, p.idx, target))
      case SetFlag(flag, value, _, next) =>
        MoveTo(started.(flags := SetFlag(p.flags, flag, value)), NextStep(steps, p.idx, next))
      case Call(fn, args, _, next) =>
        if fn in api then
          started.(busy := true, calls := p.calls[g := PendingCall(fn, args, next, p.flags)])
        else
          MoveTo(started.(busy := false), NextStep(steps, p.idx, next))
      case End =>
        started.(endCount := p.endCount + 1)
      case Say(_, _, _, _) => started
      case Choice(_, _, _) => started
  }

  /** The step under the cursor, if the cursor is on one. */
  function Current(scene: Scene, p: Player): (r: Option<Step>)
    ensures r.Some? <==> 0 <= p.idx < |scene.steps|
    ensures r.Some? ==> r.value == scene.steps[p.idx]
  {
    if 0 <= p.idx < |scene.steps| then Some(scene.steps[p.idx]) else None
  }

  /** One event. A torn-down player ignores everything. A settling call's
      writes always land; it clears `busy` and advances only if its
      generation is still mounted, whether it resolved or rejected. */
  function Apply(scene: Scene, api: set<string>, p: Player, e: Event): Player
  {
    if p.tornDown then p
    else
      var steps := scene.steps;
      match e
      case Enter =>
        if p.entryDue then EnterStep(scene, api, p) else p
      case SayNext =>
        (match Current(scene, p)
         case Some(Say(_, _, _, next)) => MoveTo(p, NextStep(steps, p.idx, next))
         case _ => p)
      case Choose(i) =>
        (match Current(scene, p)
         case Some(Choice(_, options, _)) =>
           if 0 <= i < |options| then MoveTo(p, GoTo(steps, p.idx, options[i].goto)) else p
         case _ => p)
      case CallSettled(g, writes, _) =>
        if g !in p.calls then p
        else
          var settled := p.(flags := ApplyWrites(p.flags, writes), calls := p.calls - {g});
          if p.live == Some(g) then
            MoveTo(settled.(busy := false), NextStep(steps, p.idx, p.calls[g].next))
          else settled
      case Teardown =>
        p.(tornDown := true, live := None)
  }

  /** A sequence of events, in order. */
  function Run(scene: Scene, api: set<string>, p: Player, events: seq<Event>): Player
    decreases |events|
  {
    if |events| == 0 then p else Run(scene, api, Apply(scene, api, p, events[0]), events[1..])
  }

  /** What the player renders: nothing once unmounted or past the end; the
      next button for a say; one button per option for a choice; a waiting
      box otherwise. */
  function ControlsOf(scene: Scene, p: Player): Controls
  {
    if p.tornDown then Nothing
    else
      match Current(scene, p)
      case None => Nothing
      case Some(Say(_, _, _, next)) => NextButton(next)
      case Some(Choice(_, options, _)) => OptionButtons(options)
      case Some(_) => Waiting(p.busy)
  }

  /** The bookkeeping every reachable state satisfies: the cursor on a step
      (or at 0 for an empty scene); the live generation is the latest; while
      mounted, every in-flight call belongs to the live generation, stands on
      a call step the cursor has not left, and `busy` is set exactly while
      one is in flight. */
  ghost predicate Valid(scene: Scene, p: Player) {
    var n := |scene.steps|;
    && (if n == 0 then p.idx == 0 else 0 <= p.idx < n)
    && (p.live.Some? ==> p.live.value + 1 == p.nextGen)
    && (forall g :: g in p.calls ==> g < p.nextGen)
    && (p.tornDown ==> p.live.None?)
    && (!p.tornDown ==> forall g :: g in p.calls ==> p.live == Some(g))
    && (!p.tornDown && p.live.Some? && p.live.value in p.calls ==>
          !p.entryDue && 0 <= p.idx < n && scene.steps[p.idx].Call?
          && p.calls[p.live.value].next == NextOf(scene.steps[p.idx]))
    && (!p.tornDown ==> (p.busy <==> p.live.Some? && p.live.value in p.calls))
  }
}
