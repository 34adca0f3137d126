/** The gate between an untrusted strategy and the game (code-duel-server/src/CodeExecutor.ts).
    Running the strategy in the sandbox is not modelled: its outcome, a returned JavaScript
    value or a thrown error (timeout, syntax or runtime error), is an input. */
module CodeExecution {
  import opened Types

  /** The JavaScript values a strategy can return, as plain data: objects and functions carry
      the properties a read can see. */
  datatype JsValue =
    | Undefined
    | Null
    | Boolean(b: bool)
    | Number(n: int)
    | Str(s: string)
    | Object(props: map<string, JsValue>)
    | Function(fprops: map<string, JsValue>)

  /** What one `vm.run` of the wrapped strategy produced. */
  datatype RunOutcome = Returned(value: JsValue) | Threw

  /** JavaScript truthiness (NaN is not modelled). */
  predicate Truthy(v: JsValue)
  {
    match v
    case Undefined => false
    case Null => false
    case Boolean(b) => b
    case Number(n) => n != 0
    case Str(s) => s != ""
    case Object(_) => true
    case Function(_) => true
  }

  function TypeOf(v: JsValue): string
  {
    match v
    case Undefined => "undefined"
    case Null => "object"
    case Boolean(_) => "boolean"
    case Number(_) => "number"
    case Str(_) => "string"
    case Object(_) => "object"
    case Function(_) => "function"
  }

  /** Property read `v[key]`; a missing property, or one of a primitive, reads as undefined. */
  function Get(v: JsValue, key: string): JsValue
  {
    match v
    case Object(props) => if key in props then props[key] else Undefined
    case Function(props) => if key in props then props[key] else Undefined
    case _ => Undefined
  }

  const ValidActions: seq<string> := ["move", "attack", "none"]
  const ValidDirections: seq<string> := ["up", "down", "left", "right"]

  /** `list.includes(v)` for a list of strings: only a string primitive equal to an entry matches. */
  predicate Includes(list: seq<string>, v: JsValue)
  {
    v.Str? && v.s in list
  }

  /** `isValidAction`: a truthy object whose `action` and `direction` are in the two enumerations. */
  predicate IsValidAction(v: JsValue)
    ensures IsValidAction(v) ==> v.Object?
  {
    Truthy(v) && TypeOf(v) == "object"
    && Includes(ValidActions, Get(v, "action"))
    && Includes(ValidDirections, Get(v, "direction"))
  }

  function KindName(k: ActionKind): string
  {
    match k
    case Move => "move"
    case Attack => "attack"
    case NoAction => "none"
  }

  function DirectionName(d: Direction): string
  {
    match d
    case Up => "up"
    case Down => "down"
    case Left => "left"
    case Right => "right"
  }

  /** The JavaScript object literal `{action, direction}` for an action. */
  function Encode(a: Action): JsValue
  {
    Object(map["action" := Str(KindName(a.action)), "direction" := Str(DirectionName(a.direction))])
  }

  /** The action a valid value stands for, as `executeAction` reads its two fields. */
  function Decode(v: JsValue): Action
    requires IsValidAction(v)
  {
    var k := Get(v, "action").s;
    var d := Get(v, "direction").s;
    Action(if k == "move" then Move else if k == "attack" then Attack else NoAction,
           if d == "up" then Up else if d == "down" then Down else if d == "left" then Left else Right)
  }

  /** The fallback `{action: 'none', direction: 'up'}`. */
  function Fallback(): JsValue
  {
    Encode(Action(NoAction, Up))
  }

  /** `isValidAction` accepts exactly the plain objects (not null, not functions, not primitives)
      whose two fields are among the enumerated strings. */
  lemma ValidActionShape(v: JsValue)
    ensures IsValidAction(v) <==>
      v.Object?
      && Get(v, "action") in {Str("move"), Str("attack"), Str("none")}
      && Get(v, "direction") in {Str("up"), Str("down"), Str("left"), Str("right")}
  {
    var a, d := Get(v, "action"), Get(v, "direction");
    assert Includes(ValidActions, a) <==> a in {Str("move"), Str("attack"), Str("none")} by {
      if a.Str? {
        assert a.s in ValidActions <==> a.s == "move" || a.s == "attack" || a.s == "none";
      }
    }
    assert Includes(ValidDirections, d) <==> d in {Str("up"), Str("down"), Str("left"), Str("right")} by {
      if d.Str? {
        assert d.s in ValidDirections <==> d.s == "up" || d.s == "down" || d.s == "left" || d.s == "right";
      }
    }
  }

  /** Every action has a valid encoding, and decoding it gives the action back. */
  lemma DecodeEncode(a: Action)
    ensures IsValidAction(Encode(a)) && Decode(Encode(a)) == a
  {
    assert Get(Encode(a), "action") == Str(KindName(a.action));
    assert Get(Encode(a), "direction") == Str(DirectionName(a.direction));
  }

  /** A valid value agrees with the encoding of its decoding on the two fields the game reads. */
  lemma EncodeDecode(v: JsValue)
    requires IsValidAction(v)
    ensures Get(Encode(Decode(v)), "action") == Get(v, "action")
    ensures Get(Encode(Decode(v)), "direction") == Get(v, "direction")
  {
    assert Get(v, "action").s in ValidActions;
    assert Get(v, "direction").s in ValidDirections;
  }

  /** `execute`: a valid returned value passes through unchanged (extra properties included);
      an invalid value or a thrown error yields the fallback. The result is always valid. */
  function Execute(run: RunOutcome): (r: JsValue)
    ensures IsValidAction(r)
    ensures run.Returned? && IsValidAction(run.value) ==> r == run.value
    ensures !(run.Returned? && IsValidAction(run.value)) ==> r == Fallback()
  {
    DecodeEncode(Action(NoAction, Up));
    match run
    case Threw => Fallback()
    case Returned(result) => if !IsValidAction(result) then Fallback() else result
  }

  /** The action `execute` makes the game perform: the strategy's own choice when it returned a
      valid value, the do-nothing fallback in every other case. */
  lemma ExecutedAction(run: RunOutcome)
    ensures run.Returned? && IsValidAction(run.value) ==> Decode(Execute(run)) == Decode(run.value)
    ensures !(run.Returned? && IsValidAction(run.value)) ==> Decode(Execute(run)) == Action(NoAction, Up)
  {
    DecodeEncode(Action(NoAction, Up));
  }
}
