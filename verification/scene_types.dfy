/** The authored data of a cutscene: steps, choice options, scenes, and the
    values a flag can hold. */
module SceneTypes {
  import opened Basics

  /** The JavaScript values scenes and capabilities store in flags. */
  datatype Value = Str(s: string) | Bool(b: bool) | Num(n: int)

  /** JavaScript truthiness: "", false and 0 are falsy. */
  predicate Truthy(v: Value) {
    match v
    case Str(s) => s != ""
    case Bool(b) => b
    case Num(n) => n != 0
  }

  /** The flag store: an unset flag reads as `undefined`. */
  type Flags = map<string, Value>

  /** One option of a choice: its display label (`caption`) and the label it jumps to. */
  datatype ChoiceOption = ChoiceOption(
    caption: string,
    goto: string,
    value: Option<Value>,
    icon: Option<string>,
    subtitle: Option<string>)

  /** The closed union of the six step kinds. Only say, choice, set and call
      carry a `label` (`stepLabel` here); say, set and call an optional `next`; goto a required
      `target`; end nothing. Portraits and layout hints are presentation. */
  datatype Step =
    | Say(speaker: Option<string>, text: string, stepLabel: Option<string>, next: Option<string>)
    | Choice(prompt: string, options: seq<ChoiceOption>, stepLabel: Option<string>)
    | SetFlag(flag: string, value: Value, stepLabel: Option<string>, next: Option<string>)
    | Call(fn: string, args: Option<Value>, stepLabel: Option<string>, next: Option<string>)
    | Goto(target: string)
    | End

  /** An ordered list of steps with an optional initial flag store. */
  datatype Scene = Scene(steps: seq<Step>, initFlags: Option<Flags>)

  /** The label a step carries, if its kind has one and it is set. */
  function LabelOf(s: Step): (r: Option<string>)
    ensures r.Some? ==> !s.Goto? && !s.End?
  {
    match s
    case Say(_, _, l, _) => l
    case Choice(_, _, l) => l
    case SetFlag(_, _, l, _) => l
    case Call(_, _, l, _) => l
    case Goto(_) => None
    case End => None
  }

  /** The key under which the label index records a step: its label when truthy. */
  function IndexKey(s: Step): (r: Option<string>)
    ensures r.Some? <==> LabelOf(s).Some? && LabelOf(s).value != ""
    ensures r.Some? ==> r == LabelOf(s)
  {
    match LabelOf(s)
    case Some(l) => if l != "" then Some(l) else None
    case None => None
  }

  /** The explicit successor label of a step, where its kind has one. */
  function NextOf(s: Step): (r: Option<string>)
    ensures r.Some? ==> s.Say? || s.SetFlag? || s.Call?
  {
    match s
    case Say(_, _, _, n) => n
    case SetFlag(_, _, _, n) => n
    case Call(_, _, _, n) => n
    case _ => None
  }
}
