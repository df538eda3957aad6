/**
 * The polled action table of the game (InputHandler): keyboard and mouse
 * handlers set and clear six boolean actions, gameplay code reads them by
 * name and clears the edge-triggered ones (jump, shoot) after use.
 */
module Input {
  import opened Optional

  datatype Action = Forward | Backward | Left | Right | Jump | ShootRocket

  /** The `actions` record: one flag per action. */
  datatype Actions = Actions(
    forward: bool, backward: bool, left: bool, right: bool, jump: bool, shootRocket: bool)
  {
    function Get(a: Action): bool
    {
      match a
      case Forward => forward
      case Backward => backward
      case Left => left
      case Right => right
      case Jump => jump
      case ShootRocket => shootRocket
    }

    /** Writes one flag; every other flag keeps its value. */
    function Set(a: Action, v: bool): (r: Actions)
      ensures r.Get(a) == v
      ensures forall b :: b != a ==> r.Get(b) == Get(b)
    {
      match a
      case Forward => this.(forward := v)
      case Backward => this.(backward := v)
      case Left => this.(left := v)
      case Right => this.(right := v)
      case Jump => this.(jump := v)
      case ShootRocket => this.(shootRocket := v)
    }
  }

  const Released := Actions(false, false, false, false, false, false)

  /** The property name of each action in the `actions` object. */
  function Name(a: Action): string
  {
    match a
    case Forward => "forward"
    case Backward => "backward"
    case Left => "left"
    case Right => "right"
    case Jump => "jump"
    case ShootRocket => "shootRocket"
  }

  /** Looks an action up by its property name. */
  function ActionNamed(name: string): (r: Option<Action>)
    ensures r.Some? ==> Name(r.value) == name
    ensures r.None? ==> forall a :: Name(a) != name
  {
    if name == "forward" then Some(Forward)
    else if name == "backward" then Some(Backward)
    else if name == "left" then Some(Left)
    else if name == "right" then Some(Right)
    else if name == "jump" then Some(Jump)
    else if name == "shootRocket" then Some(ShootRocket)
    else None
  }

  /**
   * Properties every plain JavaScript object inherits from Object.prototype;
   * `this.actions[name]` yields a function or an object for them, which `!!`
   * turns into true.
   */
  const InheritedNames: set<string> := {
    "constructor", "hasOwnProperty", "isPrototypeOf", "propertyIsEnumerable",
    "toLocaleString", "toString", "valueOf", "__proto__",
    "__defineGetter__", "__defineSetter__", "__lookupGetter__", "__lookupSetter__"
  }

  /** The `switch (event.code)` of the key handlers. */
  function KeyAction(code: string): (r: Option<Action>)
    ensures r == Some(Forward) <==> code == "KeyW"
    ensures r == Some(Backward) <==> code == "KeyS"
    ensures r == Some(Left) <==> code == "KeyA"
    ensures r == Some(Right) <==> code == "KeyD"
    ensures r == Some(Jump) <==> code == "Space"
    ensures r != Some(ShootRocket)
  {
    if code == "KeyW" then Some(Forward)
    else if code == "KeyS" then Some(Backward)
    else if code == "KeyA" then Some(Left)
    else if code == "KeyD" then Some(Right)
    else if code == "Space" then Some(Jump)
    else None
  }

  /** The effect of one mouse button on the table (`value` is true on press). */
  function MouseEffect(acts: Actions, button: int, value: bool): (r: Actions)
    ensures button == 0 ==> r == acts.Set(ShootRocket, value)
    ensures button == 2 ==> r == acts.Set(Jump, value)
    ensures button != 0 && button != 2 ==> r == acts
  {
    var afterLeft := if button == 0 then acts.(shootRocket := value) else acts;
    if button == 2 then afterLeft.(jump := value) else afterLeft
  }

  class InputHandler {
    var actions: Actions

    constructor ()
      ensures actions == Released
    {
      actions := Released;
    }

    method OnKeyDown(code: string)
      modifies this
      ensures KeyAction(code).Some? ==> actions == old(actions).Set(KeyAction(code).value, true)
      ensures KeyAction(code).None? ==> actions == old(actions)
    {
      match KeyAction(code)
      case Some(a) => actions := actions.Set(a, true);
      case None =>
    }

    method OnKeyUp(code: string)
      modifies this
      ensures KeyAction(code).Some? ==> actions == old(actions).Set(KeyAction(code).value, false)
      ensures KeyAction(code).None? ==> actions == old(actions)
    {
      match KeyAction(code)
      case Some(a) => actions := actions.Set(a, false);
      case None =>
    }

    method OnMouseDown(button: int)
      modifies this
      ensures actions == MouseEffect(old(actions), button, true)
    {
      if button == 0 {
        actions := actions.(shootRocket := true);
      }
      if button == 2 {
        actions := actions.(jump := true);
      }
    }

    method OnMouseUp(button: int)
      modifies this
      ensures actions == MouseEffect(old(actions), button, false)
    {
      if button == 0 {
        actions := actions.(shootRocket := false);
      }
      if button == 2 {
        actions := actions.(jump := false);
      }
    }

    /** `!!this.actions[name]`. */
    function IsKeyDown(name: string): (r: bool)
      reads this
      ensures ActionNamed(name).Some? ==> r == actions.Get(ActionNamed(name).value)
      ensures ActionNamed(name).None? ==> (r <==> name in InheritedNames)
    {
      match ActionNamed(name)
      case Some(a) => actions.Get(a)
      case None => name in InheritedNames
    }

    method ClearJump()
      modifies this
      ensures actions == old(actions).Set(Jump, false)
    {
      actions := actions.(jump := false);
    }

    method ClearShoot()
      modifies this
      ensures actions == old(actions).Set(ShootRocket, false)
    {
      actions := actions.(shootRocket := false);
    }
  }

  /** Releasing a key undoes pressing it: the action ends up released. */
  lemma KeyUpAfterKeyDown(acts: Actions, code: string)
    requires KeyAction(code).Some?
    ensures var a := KeyAction(code).value;
      acts.Set(a, true).Set(a, false) == acts.Set(a, false)
  {
    match KeyAction(code).value
    case Forward =>
    case Backward =>
    case Left =>
    case Right =>
    case Jump =>
    case ShootRocket =>
  }

  /** Two tables that agree on every action are equal. */
  lemma ExtensionalActions(p: Actions, q: Actions)
    requires forall b :: p.Get(b) == q.Get(b)
    ensures p == q
  {
    assert p.Get(Forward) == q.Get(Forward) && p.Get(Backward) == q.Get(Backward);
    assert p.Get(Left) == q.Get(Left) && p.Get(Right) == q.Get(Right);
    assert p.Get(Jump) == q.Get(Jump) && p.Get(ShootRocket) == q.Get(ShootRocket);
  }

  /** Keyboard and mouse never touch each other's exclusive action. */
  lemma KeysNeverShoot(acts: Actions, code: string, v: bool)
    requires KeyAction(code).Some?
    ensures acts.Set(KeyAction(code).value, v).shootRocket == acts.shootRocket
  {
    assert KeyAction(code).value != ShootRocket;
    assert acts.Set(KeyAction(code).value, v).Get(ShootRocket) == acts.Get(ShootRocket);
  }

  /** Each action is read back under its own name: the name table is a round trip. */
  lemma {:induction false} NameRoundTrip(a: Action)
    ensures ActionNamed(Name(a)) == Some(a)
  {
    match a
    case Forward =>
    case Backward => assert Name(a) != "forward";
    case Left => assert Name(a) != "forward" && Name(a) != "backward";
    case Right => assert Name(a) != "forward" && Name(a) != "backward" && Name(a) != "left";
    case Jump =>
      assert Name(a) != "forward" && Name(a) != "backward" && Name(a) != "left" && Name(a) != "right";
    case ShootRocket =>
      assert Name(a) != "forward" && Name(a) != "backward" && Name(a) != "left";
      assert Name(a) != "right" && Name(a) != "jump";
  }
}
