/** `Input` and `InputBinding`: named bindings from actions to a key, a
    gamepad button, a trigger, a thumbstick, a thumbstick direction or a
    mouse button, each with an exact set of modifier keys, queried against
    the previous and the current device snapshots. */
module Controls {
  import opened Platform

  /** XNA's `Keys` values, of which the model needs the modifier keys. */
  type Key = nat

  const NoKey: Key := 0
  const LeftShift: Key := 160
  const RightShift: Key := 161
  const LeftControl: Key := 162
  const RightControl: Key := 163
  const LeftAlt: Key := 164
  const RightAlt: Key := 165

  /** XNA's `Buttons` values; `BigButton` is what a fresh binding holds. */
  type Button = nat

  const BigButton: Button := 2048

  datatype MouseButton = NoMouseButton | LeftMouseButton | RightMouseButton | MiddleMouseButton
  datatype Trigger = NoTrigger | LeftTrigger | RightTrigger
  datatype Thumbstick = NoThumbstick | LeftThumbstick | RightThumbstick
  datatype ThumbstickDirection = NoDirection | Up | Down | LeftDirection | RightDirection
  datatype BindingType =
    | NoBinding | KeyBinding | ButtonBinding | TriggerBinding
    | ThumbstickBinding | ThumbstickDirectionBinding | MouseButtonBinding
  datatype FrameState = Previous | Current

  /** The three modifiers, each held when either of its two keys is down. */
  datatype Modifier = Alt | Ctrl | Shift

  /** A keyboard snapshot: the keys held down. */
  datatype KeyboardState = KeyboardState(down: set<Key>)

  /** A gamepad snapshot: the buttons held, both sticks and both triggers. */
  datatype GamePadState = GamePadState(buttons: set<Button>, leftStick: Vector2, rightStick: Vector2,
                                       leftTrigger: real, rightTrigger: real)

  /** A mouse snapshot: which buttons are pressed, and the cursor position. */
  datatype MouseState = MouseState(left: bool, right: bool, middle: bool, x: real, y: real)

  const NoKeys := KeyboardState({})
  const IdleGamePad := GamePadState({}, Zero, Zero, 0.0, 0.0)
  const IdleMouse := MouseState(false, false, false, 0.0, 0.0)

  /** `Modifier.IsActive`: either of the modifier's keys is down. */
  predicate IsModifierActive(m: Modifier, ks: KeyboardState): (r: bool)
    ensures r <==> exists k :: k in ks.down && IsKeyOf(k, m)
  {
    match m
    case Alt => LeftAlt in ks.down || RightAlt in ks.down
    case Ctrl => LeftControl in ks.down || RightControl in ks.down
    case Shift => LeftShift in ks.down || RightShift in ks.down
  }

  /** `ModifiersMatch` over a list of modifiers: Alt, Ctrl and Shift are each
      held exactly when listed. */
  predicate MatchesModifiers(mods: seq<Modifier>, ks: KeyboardState)
  {
    && IsModifierActive(Alt, ks) == (Alt in mods)
    && IsModifierActive(Ctrl, ks) == (Ctrl in mods)
    && IsModifierActive(Shift, ks) == (Shift in mods)
  }

  /** The modifiers match exactly when every modifier is held iff listed. */
  lemma MatchesModifiersMeaning(mods: seq<Modifier>, ks: KeyboardState)
    ensures MatchesModifiers(mods, ks) <==> forall m: Modifier :: IsModifierActive(m, ks) == (m in mods)
  {
    if MatchesModifiers(mods, ks) {
      forall m: Modifier
        ensures IsModifierActive(m, ks) == (m in mods)
      {
        if m == Alt {
        } else if m == Ctrl {
        } else {
          assert m == Shift;
        }
      }
    }
  }

  /** Two modifier lists that differ on a modifier never both match one
      keyboard. */
  lemma DifferentModifiersExclusive(mods1: seq<Modifier>, mods2: seq<Modifier>, m: Modifier, ks: KeyboardState)
    requires m in mods1 && m !in mods2
    ensures !(MatchesModifiers(mods1, ks) && MatchesModifiers(mods2, ks))
  {
    MatchesModifiersMeaning(mods1, ks);
    MatchesModifiersMeaning(mods2, ks);
  }

  /** `SetModifiers`' `new Modifier[n]` followed by `Array.Copy`. */
  method CopyModifiers(modifiers: array<Modifier>) returns (copy: array<Modifier>)
    ensures fresh(copy)
    ensures copy[..] == modifiers[..]
  {
    copy := new Modifier[modifiers.Length];
    for i := 0 to modifiers.Length
      invariant forall j :: 0 <= j < i ==> copy[j] == modifiers[j]
    {
      copy[i] := modifiers[i];
    }
  }

  class InputBinding {
    var bindingType: BindingType
    var thumbstickDirection: ThumbstickDirection
    var mouseButton: MouseButton
    var thumbstick: Thumbstick
    var trigger: Trigger
    var button: Button
    var key: Key
    var modifiers: array<Modifier>

    /** `new InputBinding(type, modifiers)`: every input field at its "none"
        value, the button at `BigButton`, and a private copy of the
        modifiers. */
    constructor (bindingType: BindingType, modifiers: array<Modifier>)
      ensures this.bindingType == bindingType
      ensures thumbstickDirection == NoDirection && mouseButton == NoMouseButton
      ensures thumbstick == NoThumbstick && trigger == NoTrigger
      ensures key == NoKey && button == BigButton
      ensures fresh(this.modifiers) && this.modifiers[..] == modifiers[..]
    {
      this.bindingType := bindingType;
      thumbstickDirection := NoDirection;
      mouseButton := NoMouseButton;
      thumbstick := NoThumbstick;
      trigger := NoTrigger;
      key := NoKey;
      button := BigButton;
      var copy := CopyModifiers(modifiers);
      this.modifiers := copy;
    }

    /** `new InputBinding()`: no binding and no modifiers. */
    constructor Unbound()
      ensures bindingType == NoBinding
      ensures thumbstickDirection == NoDirection && mouseButton == NoMouseButton
      ensures thumbstick == NoThumbstick && trigger == NoTrigger
      ensures key == NoKey && button == BigButton
      ensures fresh(modifiers) && modifiers[..] == []
    {
      bindingType := NoBinding;
      thumbstickDirection := NoDirection;
      mouseButton := NoMouseButton;
      thumbstick := NoThumbstick;
      trigger := NoTrigger;
      key := NoKey;
      button := BigButton;
      modifiers := new Modifier[0];
    }

    /** `SetModifiers(modifiers)`: the binding keeps its own copy. */
    method SetModifiers(modifiers: array<Modifier>)
      modifies this
      ensures fresh(this.modifiers) && this.modifiers[..] == old(modifiers[..])
      ensures bindingType == old(bindingType) && thumbstickDirection == old(thumbstickDirection)
      ensures mouseButton == old(mouseButton) && thumbstick == old(thumbstick)
      ensures trigger == old(trigger) && button == old(button) && key == old(key)
    {
      var copy := CopyModifiers(modifiers);
      this.modifiers := copy;
    }

    /** `SetBinding(thumbstickDirection, thumbstick, modifiers)`. As in every
        `SetBinding` overload, `ClearBindings` only resets the type, so the
        fields of an earlier binding stay as they were. */
    method SetThumbstickDirectionBinding(direction: ThumbstickDirection, stick: Thumbstick, modifiers: array<Modifier>)
      modifies this
      ensures bindingType == ThumbstickDirectionBinding
      ensures thumbstickDirection == direction && thumbstick == stick
      ensures mouseButton == old(mouseButton) && trigger == old(trigger) && button == old(button) && key == old(key)
      ensures fresh(this.modifiers) && this.modifiers[..] == old(modifiers[..])
    {
      bindingType := NoBinding;
      thumbstickDirection := direction;
      thumbstick := stick;
      bindingType := ThumbstickDirectionBinding;
      SetModifiers(modifiers);
    }

    /** `SetBinding(mouseButton, modifiers)`. */
    method SetMouseButtonBinding(mouseButton: MouseButton, modifiers: array<Modifier>)
      modifies this
      ensures bindingType == MouseButtonBinding && this.mouseButton == mouseButton
      ensures thumbstickDirection == old(thumbstickDirection) && thumbstick == old(thumbstick)
      ensures trigger == old(trigger) && button == old(button) && key == old(key)
      ensures fresh(this.modifiers) && this.modifiers[..] == old(modifiers[..])
    {
      bindingType := NoBinding;
      this.mouseButton := mouseButton;
      bindingType := MouseButtonBinding;
      SetModifiers(modifiers);
    }

    /** `SetBinding(thumbstick, modifiers)`. */
    method SetThumbstickBinding(stick: Thumbstick, modifiers: array<Modifier>)
      modifies this
      ensures bindingType == ThumbstickBinding && thumbstick == stick
      ensures thumbstickDirection == old(thumbstickDirection) && mouseButton == old(mouseButton)
      ensures trigger == old(trigger) && button == old(button) && key == old(key)
      ensures fresh(this.modifiers) && this.modifiers[..] == old(modifiers[..])
    {
      bindingType := NoBinding;
      thumbstick := stick;
      bindingType := ThumbstickBinding;
      SetModifiers(modifiers);
    }

    /** `SetBinding(trigger, modifiers)`. */
    method SetTriggerBinding(trigger: Trigger, modifiers: array<Modifier>)
      modifies this
      ensures bindingType == TriggerBinding && this.trigger == trigger
      ensures thumbstickDirection == old(thumbstickDirection) && mouseButton == old(mouseButton)
      ensures thumbstick == old(thumbstick) && button == old(button) && key == old(key)
      ensures fresh(this.modifiers) && this.modifiers[..] == old(modifiers[..])
    {
      bindingType := NoBinding;
      this.trigger := trigger;
      bindingType := TriggerBinding;
      SetModifiers(modifiers);
    }

    /** `SetBinding(button, modifiers)`. */
    method SetButtonBinding(button: Button, modifiers: array<Modifier>)
      modifies this
      ensures bindingType == ButtonBinding && this.button == button
      ensures thumbstickDirection == old(thumbstickDirection) && mouseButton == old(mouseButton)
      ensures thumbstick == old(thumbstick) && trigger == old(trigger) && key == old(key)
      ensures fresh(this.modifiers) && this.modifiers[..] == old(modifiers[..])
    {
      bindingType := NoBinding;
      this.button := button;
      bindingType := ButtonBinding;
      SetModifiers(modifiers);
    }

    /** `SetBinding(key, modifiers)`. */
    method SetKeyBinding(key: Key, modifiers: array<Modifier>)
      modifies this
      ensures bindingType == KeyBinding && this.key == key
      ensures thumbstickDirection == old(thumbstickDirection) && mouseButton == old(mouseButton)
      ensures thumbstick == old(thumbstick) && trigger == old(trigger) && button == old(button)
      ensures fresh(this.modifiers) && this.modifiers[..] == old(modifiers[..])
    {
      bindingType := NoBinding;
      this.key := key;
      bindingType := KeyBinding;
      SetModifiers(modifiers);
    }

    /** `ModifiersMatch(keyState)`: the modifiers held are exactly the
        listed ones. */
    predicate ModifiersMatch(ks: KeyboardState): (r: bool)
      reads this, modifiers
      ensures r <==> forall m: Modifier :: IsModifierActive(m, ks) == (m in modifiers[..])
    {
      MatchesModifiersMeaning(modifiers[..], ks);
      MatchesModifiers(modifiers[..], ks)
    }
  }

  /** Changing the caller's modifier array after `SetBinding` leaves the
      binding's modifiers as they were. */
  method ModifiersAreCopied(b: InputBinding, k: Key, mods: array<Modifier>, m: Modifier)
    requires mods.Length > 0
    modifies b, mods
    ensures b.modifiers[..] == old(mods[..])
    ensures mods[0] == m
  {
    b.SetKeyBinding(k, mods);
    mods[0] := m;
  }

  class Input {
    var lastKeyboard: KeyboardState
    var currentKeyboard: KeyboardState
    var lastGamePad: GamePadState
    var currentGamePad: GamePadState
    var lastMouse: MouseState
    var currentMouse: MouseState
    var keybindings: map<string, InputBinding>
    var thumbstickThreshold: real
    var triggerThreshold: real

    /** Everything a query can depend on: the bindings and their modifier
        arrays. */
    ghost function Repr(): set<object>
      reads this, keybindings.Values
    {
      keybindings.Values + set b | b in keybindings.Values :: b.modifiers
    }

    /** `new Input()`: no bindings, zero thresholds, idle device snapshots. */
    constructor ()
      ensures keybindings == map[]
      ensures thumbstickThreshold == 0.0 && triggerThreshold == 0.0
      ensures lastKeyboard == NoKeys && currentKeyboard == NoKeys
      ensures lastGamePad == IdleGamePad && currentGamePad == IdleGamePad
      ensures lastMouse == IdleMouse && currentMouse == IdleMouse
    {
      keybindings := map[];
      thumbstickThreshold := 0.0;
      triggerThreshold := 0.0;
      lastKeyboard, currentKeyboard := NoKeys, NoKeys;
      lastGamePad, currentGamePad := IdleGamePad, IdleGamePad;
      lastMouse, currentMouse := IdleMouse, IdleMouse;
    }

    /** `new Input(input)`: the same snapshots and thresholds, and a new
        dictionary holding the same binding objects. */
    constructor Copy(input: Input)
      ensures keybindings == input.keybindings
      ensures thumbstickThreshold == input.thumbstickThreshold && triggerThreshold == input.triggerThreshold
      ensures lastKeyboard == input.lastKeyboard && currentKeyboard == input.currentKeyboard
      ensures lastGamePad == input.lastGamePad && currentGamePad == input.currentGamePad
      ensures lastMouse == input.lastMouse && currentMouse == input.currentMouse
    {
      lastKeyboard, currentKeyboard := input.lastKeyboard, input.currentKeyboard;
      lastGamePad, currentGamePad := input.lastGamePad, input.currentGamePad;
      lastMouse, currentMouse := input.lastMouse, input.currentMouse;
      triggerThreshold := input.triggerThreshold;
      thumbstickThreshold := input.thumbstickThreshold;
      keybindings := input.keybindings;
    }

    /** The `ThumbstickThreshold` setter. */
    method SetThumbstickThreshold(value: real)
      modifies this
      ensures thumbstickThreshold == value
      ensures keybindings == old(keybindings) && triggerThreshold == old(triggerThreshold)
      ensures currentKeyboard == old(currentKeyboard) && lastKeyboard == old(lastKeyboard)
      ensures currentGamePad == old(currentGamePad) && lastGamePad == old(lastGamePad)
      ensures currentMouse == old(currentMouse) && lastMouse == old(lastMouse)
    {
      thumbstickThreshold := value;
    }

    /** The `TriggerThreshold` setter. */
    method SetTriggerThreshold(value: real)
      modifies this
      ensures triggerThreshold == value
      ensures keybindings == old(keybindings) && thumbstickThreshold == old(thumbstickThreshold)
      ensures currentKeyboard == old(currentKeyboard) && lastKeyboard == old(lastKeyboard)
      ensures currentGamePad == old(currentGamePad) && lastGamePad == old(lastGamePad)
      ensures currentMouse == old(currentMouse) && lastMouse == old(lastMouse)
    {
      triggerThreshold := value;
    }

    /** `Update()`: the current snapshots become the previous ones and the
        freshly polled states, given here, become current. */
    method Update(keyboard: KeyboardState, gamePad: GamePadState, mouse: MouseState)
      modifies this
      ensures lastKeyboard == old(currentKeyboard) && currentKeyboard == keyboard
      ensures lastGamePad == old(currentGamePad) && currentGamePad == gamePad
      ensures lastMouse == old(currentMouse) && currentMouse == mouse
      ensures keybindings == old(keybindings)
      ensures thumbstickThreshold == old(thumbstickThreshold) && triggerThreshold == old(triggerThreshold)
    {
      lastKeyboard := currentKeyboard;
      lastGamePad := currentGamePad;
      lastMouse := currentMouse;
      currentKeyboard := keyboard;
      currentGamePad := gamePad;
      currentMouse := mouse;
    }

    /** `HasKeyBinding(name)`. */
    predicate HasKeyBinding(name: string)
      reads this
    {
      name in keybindings
    }

    /** `AddKeyBinding(name, binding)`: any old binding under the name is
        removed first, so the add never finds a duplicate. */
    method AddKeyBinding(name: string, binding: InputBinding)
      modifies this
      ensures keybindings == old(keybindings)[name := binding]
      ensures HasKeyBinding(name) && keybindings[name] == binding
      ensures forall n :: n != name ==> (HasKeyBinding(n) <==> old(HasKeyBinding(n)))
      ensures currentKeyboard == old(currentKeyboard) && lastKeyboard == old(lastKeyboard)
      ensures currentGamePad == old(currentGamePad) && lastGamePad == old(lastGamePad)
      ensures currentMouse == old(currentMouse) && lastMouse == old(lastMouse)
      ensures thumbstickThreshold == old(thumbstickThreshold) && triggerThreshold == old(triggerThreshold)
    {
      RemoveKeyBinding(name);
      keybindings := keybindings[name := binding];
    }

    /** `AddKeyBinding(name, thumbstickDirection, thumbstick, modifiers)`. */
    method AddThumbstickDirectionBinding(name: string, direction: ThumbstickDirection, stick: Thumbstick, modifiers: array<Modifier>)
      returns (binding: InputBinding)
      modifies this
      ensures fresh(binding) && keybindings == old(keybindings)[name := binding]
      ensures binding.bindingType == ThumbstickDirectionBinding
      ensures binding.thumbstickDirection == direction && binding.thumbstick == stick
      ensures fresh(binding.modifiers) && binding.modifiers[..] == modifiers[..]
      ensures currentKeyboard == old(currentKeyboard) && lastKeyboard == old(lastKeyboard)
      ensures currentGamePad == old(currentGamePad) && lastGamePad == old(lastGamePad)
      ensures currentMouse == old(currentMouse) && lastMouse == old(lastMouse)
      ensures thumbstickThreshold == old(thumbstickThreshold) && triggerThreshold == old(triggerThreshold)
    {
      binding := new InputBinding.Unbound();
      binding.SetThumbstickDirectionBinding(direction, stick, modifiers);
      AddKeyBinding(name, binding);
    }

    /** `AddKeyBinding(name, mouseButton, modifiers)`. */
    method AddMouseButtonBinding(name: string, mouseButton: MouseButton, modifiers: array<Modifier>)
      returns (binding: InputBinding)
      modifies this
      ensures fresh(binding) && keybindings == old(keybindings)[name := binding]
      ensures binding.bindingType == MouseButtonBinding && binding.mouseButton == mouseButton
      ensures fresh(binding.modifiers) && binding.modifiers[..] == modifiers[..]
      ensures currentKeyboard == old(currentKeyboard) && lastKeyboard == old(lastKeyboard)
      ensures currentGamePad == old(currentGamePad) && lastGamePad == old(lastGamePad)
      ensures currentMouse == old(currentMouse) && lastMouse == old(lastMouse)
      ensures thumbstickThreshold == old(thumbstickThreshold) && triggerThreshold == old(triggerThreshold)
    {
      binding := new InputBinding.Unbound();
      binding.SetMouseButtonBinding(mouseButton, modifiers);
      AddKeyBinding(name, binding);
    }

    /** `AddKeyBinding(name, thumbstick, modifiers)`. */
    method AddThumbstickBinding(name: string, stick: Thumbstick, modifiers: array<Modifier>)
      returns (binding: InputBinding)
      modifies this
      ensures fresh(binding) && keybindings == old(keybindings)[name := binding]
      ensures binding.bindingType == ThumbstickBinding && binding.thumbstick == stick
      ensures fresh(binding.modifiers) && binding.modifiers[..] == modifiers[..]
      ensures currentKeyboard == old(currentKeyboard) && lastKeyboard == old(lastKeyboard)
      ensures currentGamePad == old(currentGamePad) && lastGamePad == old(lastGamePad)
      ensures currentMouse == old(currentMouse) && lastMouse == old(lastMouse)
      ensures thumbstickThreshold == old(thumbstickThreshold) && triggerThreshold == old(triggerThreshold)
    {
      binding := new InputBinding.Unbound();
      binding.SetThumbstickBinding(stick, modifiers);
      AddKeyBinding(name, binding);
    }

    /** `AddKeyBinding(name, trigger, modifiers)`. */
    method AddTriggerBinding(name: string, trigger: Trigger, modifiers: array<Modifier>)
      returns (binding: InputBinding)
      modifies this
      ensures fresh(binding) && keybindings == old(keybindings)[name := binding]
      ensures binding.bindingType == TriggerBinding && binding.trigger == trigger
      ensures fresh(binding.modifiers) && binding.modifiers[..] == modifiers[..]
      ensures currentKeyboard == old(currentKeyboard) && lastKeyboard == old(lastKeyboard)
      ensures currentGamePad == old(currentGamePad) && lastGamePad == old(lastGamePad)
      ensures currentMouse == old(currentMouse) && lastMouse == old(lastMouse)
      ensures thumbstickThreshold == old(thumbstickThreshold) && triggerThreshold == old(triggerThreshold)
    {
      binding := new InputBinding.Unbound();
      binding.SetTriggerBinding(trigger, modifiers);
      AddKeyBinding(name, binding);
    }

    /** `AddKeyBinding(name, button, modifiers)`. */
    method AddButtonBinding(name: string, button: Button, modifiers: array<Modifier>)
      returns (binding: InputBinding)
      modifies this
      ensures fresh(binding) && keybindings == old(keybindings)[name := binding]
      ensures binding.bindingType == ButtonBinding && binding.button == button
      ensures fresh(binding.modifiers) && binding.modifiers[..] == modifiers[..]
      ensures currentKeyboard == old(currentKeyboard) && lastKeyboard == old(lastKeyboard)
      ensures currentGamePad == old(currentGamePad) && lastGamePad == old(lastGamePad)
      ensures currentMouse == old(currentMouse) && lastMouse == old(lastMouse)
      ensures thumbstickThreshold == old(thumbstickThreshold) && triggerThreshold == old(triggerThreshold)
    {
      binding := new InputBinding.Unbound();
      binding.SetButtonBinding(button, modifiers);
      AddKeyBinding(name, binding);
    }

    /** `AddKeyBinding(name, key, modifiers)`. */
    method AddKeyBindingFor(name: string, key: Key, modifiers: array<Modifier>)
      returns (binding: InputBinding)
      modifies this
      ensures fresh(binding) && keybindings == old(keybindings)[name := binding]
      ensures binding.bindingType == KeyBinding && binding.key == key
      ensures fresh(binding.modifiers) && binding.modifiers[..] == modifiers[..]
      ensures currentKeyboard == old(currentKeyboard) && lastKeyboard == old(lastKeyboard)
      ensures currentGamePad == old(currentGamePad) && lastGamePad == old(lastGamePad)
      ensures currentMouse == old(currentMouse) && lastMouse == old(lastMouse)
      ensures thumbstickThreshold == old(thumbstickThreshold) && triggerThreshold == old(triggerThreshold)
    {
      binding := new InputBinding.Unbound();
      binding.SetKeyBinding(key, modifiers);
      AddKeyBinding(name, binding);
    }

    /** `RemoveKeyBinding(name)`: a no-op for an absent name. */
    method RemoveKeyBinding(name: string)
      modifies this
      ensures keybindings == old(keybindings) - {name}
      ensures !HasKeyBinding(name)
      ensures !old(HasKeyBinding(name)) ==> keybindings == old(keybindings)
      ensures currentKeyboard == old(currentKeyboard) && lastKeyboard == old(lastKeyboard)
      ensures currentGamePad == old(currentGamePad) && lastGamePad == old(lastGamePad)
      ensures currentMouse == old(currentMouse) && lastMouse == old(lastMouse)
      ensures thumbstickThreshold == old(thumbstickThreshold) && triggerThreshold == old(triggerThreshold)
    {
      if HasKeyBinding(name) {
        keybindings := keybindings - {name};
      }
    }

    /** `UpdateKeyBinding(name, binding)`: remove, then add. */
    method UpdateKeyBinding(name: string, binding: InputBinding)
      modifies this
      ensures keybindings == old(keybindings)[name := binding]
      ensures currentKeyboard == old(currentKeyboard) && lastKeyboard == old(lastKeyboard)
      ensures currentGamePad == old(currentGamePad) && lastGamePad == old(lastGamePad)
      ensures currentMouse == old(currentMouse) && lastMouse == old(lastMouse)
      ensures thumbstickThreshold == old(thumbstickThreshold) && triggerThreshold == old(triggerThreshold)
    {
      RemoveKeyBinding(name);
      AddKeyBinding(name, binding);
    }

    function KeyboardAt(state: FrameState): KeyboardState
      reads this
    {
      if state == Current then currentKeyboard else lastKeyboard
    }

    function GamePadAt(state: FrameState): GamePadState
      reads this
    {
      if state == Current then currentGamePad else lastGamePad
    }

    function MouseAt(state: FrameState): MouseState
      reads this
    {
      if state == Current then currentMouse else lastMouse
    }

    /** `IsKeyActive(key, state)`. */
    predicate IsKeyActive(key: Key, state: FrameState)
      reads this
    {
      key in KeyboardAt(state).down
    }

    /** `IsButtonActive(button, state)`. */
    predicate IsButtonActive(button: Button, state: FrameState)
      reads this
    {
      button in GamePadAt(state).buttons
    }

    /** `IsMouseButtonActive(button, state)`: no button is never pressed. */
    predicate IsMouseButtonActive(button: MouseButton, state: FrameState)
      reads this
    {
      var mouse := MouseAt(state);
      match button
      case LeftMouseButton => mouse.left
      case RightMouseButton => mouse.right
      case MiddleMouseButton => mouse.middle
      case NoMouseButton => false
    }

    /** The stick a binding names: anything but the left stick reads the
        right one. */
    function StickAt(stick: Thumbstick, state: FrameState): Vector2
      reads this
    {
      if stick == LeftThumbstick then GamePadAt(state).leftStick else GamePadAt(state).rightStick
    }

    /** `IsThumbstickDirectionActive(direction, stick, state)`: the stick is
        pushed at least the threshold along the direction. */
    predicate IsThumbstickDirectionActive(direction: ThumbstickDirection, stick: Thumbstick, state: FrameState)
      reads this
    {
      var v := StickAt(stick, state);
      match direction
      case Up => v.Y >= thumbstickThreshold
      case Down => v.Y <= -thumbstickThreshold
      case LeftDirection => v.X <= -thumbstickThreshold
      case RightDirection => v.X >= thumbstickThreshold
      case NoDirection => false
    }

    /** `IsThumbstickActive(stick, state)`: the stick's length reaches the
        threshold. The length is never negative, so the test is written on
        squares. */
    predicate IsThumbstickActive(stick: Thumbstick, state: FrameState)
      reads this
    {
      var v := StickAt(stick, state);
      thumbstickThreshold <= 0.0 || LengthSquared(v) >= thumbstickThreshold * thumbstickThreshold
    }

    /** `IsTriggerActive(trigger, state)`: anything but the left trigger reads
        the right one. */
    predicate IsTriggerActive(trigger: Trigger, state: FrameState)
      reads this
    {
      var pad := GamePadAt(state);
      (if trigger == LeftTrigger then pad.leftTrigger else pad.rightTrigger) >= triggerThreshold
    }

    /** The input a binding names is held, modifiers aside. */
    predicate IsBoundInputActive(b: InputBinding, state: FrameState)
      reads this, b
    {
      match b.bindingType
      case ThumbstickDirectionBinding => IsThumbstickDirectionActive(b.thumbstickDirection, b.thumbstick, state)
      case MouseButtonBinding => IsMouseButtonActive(b.mouseButton, state)
      case ThumbstickBinding => IsThumbstickActive(b.thumbstick, state)
      case ButtonBinding => IsButtonActive(b.button, state)
      case KeyBinding => IsKeyActive(b.key, state)
      case TriggerBinding => IsTriggerActive(b.trigger, state)
      case NoBinding => false
    }

    /** `IsKeyBindingActive(name, state)`: the name is bound, its input is
        held in that frame and the modifiers held are exactly the listed
        ones. */
    function IsKeyBindingActive(name: string, state: FrameState): (r: bool)
      reads this, Repr()
      ensures !HasKeyBinding(name) ==> !r
      ensures HasKeyBinding(name) && keybindings[name].bindingType == NoBinding ==> !r
      ensures r ==> keybindings[name].ModifiersMatch(KeyboardAt(state))
    {
      if name in keybindings then
        var b := keybindings[name];
        IsBoundInputActive(b, state) && b.ModifiersMatch(KeyboardAt(state))
      else
        false
    }

    /** No device changed between the previous and the current frame. */
    predicate Steady()
      reads this
    {
      lastKeyboard == currentKeyboard && lastGamePad == currentGamePad && lastMouse == currentMouse
    }

    /** `IsKeyBindingPress(name)`: active now, not in the previous frame. A
        press needs a bound name and a device that changed. */
    predicate IsKeyBindingPress(name: string): (r: bool)
      reads this, Repr()
      ensures r ==> HasKeyBinding(name) && keybindings[name].bindingType != NoBinding
      ensures r ==> !Steady()
    {
      SteadyFramesAgree(this, name);
      IsKeyBindingActive(name, Current) && !IsKeyBindingActive(name, Previous)
    }

    /** `IsKeyBindingRelease(name)`: active in the previous frame, not now. A
        release, too, needs a bound name and a device that changed. */
    predicate IsKeyBindingRelease(name: string): (r: bool)
      reads this, Repr()
      ensures r ==> HasKeyBinding(name) && keybindings[name].bindingType != NoBinding
      ensures r ==> !Steady()
    {
      SteadyFramesAgree(this, name);
      IsKeyBindingActive(name, Previous) && !IsKeyBindingActive(name, Current)
    }

    /** `GetMousePos(state)`: the cursor of the current snapshot, or of the
        previous one. */
    function GetMousePos(state: FrameState): (r: Vector2)
      reads this
      ensures state == Current ==> r == Vector2(currentMouse.x, currentMouse.y)
      ensures state == Previous ==> r == Vector2(lastMouse.x, lastMouse.y)
    {
      var mouse := MouseAt(state);
      Vector2(mouse.x, mouse.y)
    }
  }

  /** With no device changed, every binding reads the same in both frames. */
  lemma SteadyFramesAgree(input: Input, name: string)
    ensures input.Steady() ==> input.IsKeyBindingActive(name, Current) == input.IsKeyBindingActive(name, Previous)
  {
    if input.Steady() {
      assert input.KeyboardAt(Current) == input.KeyboardAt(Previous);
      assert input.GamePadAt(Current) == input.GamePadAt(Previous);
      assert input.MouseAt(Current) == input.MouseAt(Previous);
    }
  }

  /** A name without a binding is never active, pressed or released. */
  lemma UnboundNameNeverFires(input: Input, name: string, state: FrameState)
    requires !input.HasKeyBinding(name)
    ensures !input.IsKeyBindingActive(name, state)
    ensures !input.IsKeyBindingPress(name) && !input.IsKeyBindingRelease(name)
  {
  }

  /** The two keys of a modifier. */
  predicate IsKeyOf(k: Key, m: Modifier)
  {
    match m
    case Alt => k == LeftAlt || k == RightAlt
    case Ctrl => k == LeftControl || k == RightControl
    case Shift => k == LeftShift || k == RightShift
  }

  /** A key binding to one of a modifier's own keys never fires unless it
      lists that modifier: holding the key holds the modifier, which the
      exact modifier test then refuses. */
  lemma ModifierKeyNeedsItsModifier(input: Input, name: string, state: FrameState, m: Modifier)
    requires input.HasKeyBinding(name)
    requires input.keybindings[name].bindingType == KeyBinding
    requires IsKeyOf(input.keybindings[name].key, m)
    requires m !in input.keybindings[name].modifiers[..]
    ensures !input.IsKeyBindingActive(name, state)
  {
  }

  /** After `Update`, the previous frame answers what the current one did,
      and the current frame reads the polled gamepad. */
  method ButtonQueryAfterUpdate(input: Input, keyboard: KeyboardState, gamePad: GamePadState, mouse: MouseState, button: Button)
    modifies input
    ensures input.IsButtonActive(button, Previous) == old(input.IsButtonActive(button, Current))
    ensures input.IsButtonActive(button, Current) == (button in gamePad.buttons)
  {
    input.Update(keyboard, gamePad, mouse);
  }

  /** After `Update`, the previous frame answers what the current one did; the
      current frame reads the polled mouse, and no button is never held. */
  method MouseButtonQueryAfterUpdate(input: Input, keyboard: KeyboardState, gamePad: GamePadState, mouse: MouseState, button: MouseButton)
    modifies input
    ensures input.IsMouseButtonActive(button, Previous) == old(input.IsMouseButtonActive(button, Current))
    ensures button == LeftMouseButton ==> input.IsMouseButtonActive(button, Current) == mouse.left
    ensures button == RightMouseButton ==> input.IsMouseButtonActive(button, Current) == mouse.right
    ensures button == MiddleMouseButton ==> input.IsMouseButtonActive(button, Current) == mouse.middle
    ensures button == NoMouseButton ==> !input.IsMouseButtonActive(button, Current) && !input.IsMouseButtonActive(button, Previous)
  {
    input.Update(keyboard, gamePad, mouse);
  }

  /** After `Update`, the previous cursor is the one that was current, and the
      current cursor is the polled one. */
  method MousePosAfterUpdate(input: Input, keyboard: KeyboardState, gamePad: GamePadState, mouse: MouseState)
    modifies input
    ensures input.GetMousePos(Previous) == old(input.GetMousePos(Current))
    ensures input.GetMousePos(Current) == Vector2(mouse.x, mouse.y)
  {
    input.Update(keyboard, gamePad, mouse);
  }

  /** After `Update`, a press is a binding active under the polled states that
      was not active under the states current before. */
  method PressAfterUpdate(input: Input, keyboard: KeyboardState, gamePad: GamePadState, mouse: MouseState, name: string)
    modifies input
    ensures input.IsKeyBindingPress(name) <==>
      input.IsKeyBindingActive(name, Current) && !old(input.IsKeyBindingActive(name, Current))
    ensures input.IsKeyBindingRelease(name) <==>
      !input.IsKeyBindingActive(name, Current) && old(input.IsKeyBindingActive(name, Current))
  {
    input.Update(keyboard, gamePad, mouse);
  }

  /** A higher trigger threshold never makes a trigger active, and every
      trigger but the left one reads the right trigger. */
  lemma TriggerThresholdMonotone(a: Input, b: Input, trigger: Trigger, state: FrameState)
    requires a.GamePadAt(state) == b.GamePadAt(state) && b.triggerThreshold <= a.triggerThreshold
    ensures a.IsTriggerActive(trigger, state) ==> b.IsTriggerActive(trigger, state)
    ensures a.IsTriggerActive(NoTrigger, state) == a.IsTriggerActive(RightTrigger, state)
  {
  }

  /** The test on squares is the source's test on the stick's length. */
  lemma ThumbstickActiveMeansLength(input: Input, stick: Thumbstick, state: FrameState, len: real)
    requires len >= 0.0 && len * len == LengthSquared(input.StickAt(stick, state))
    ensures input.IsThumbstickActive(stick, state) <==> len >= input.thumbstickThreshold
  {
    var t := input.thumbstickThreshold;
    if t > 0.0 {
      SquareMonotone(len, t);
    }
  }

  /** On non-negative reals, squaring keeps the order. */
  lemma SquareMonotone(x: real, y: real)
    requires x >= 0.0 && y > 0.0
    ensures x >= y <==> x * x >= y * y
  {
    if x >= y {
      assert x * x >= y * x >= y * y;
    } else {
      MulStrict(x, x, y);
    }
  }

  /** `a*b < c*c` for `0 <= a, b < c`. */
  lemma MulStrict(a: real, b: real, c: real)
    requires 0.0 <= a < c && 0.0 <= b < c
    ensures a * b < c * c
  {
    assert a * (c - b) >= 0.0;
    assert (c - a) * c > 0.0;
  }

  /** A binding is never pressed and released in the same frame. */
  lemma PressAndReleaseExclusive(input: Input, name: string)
    ensures !(input.IsKeyBindingPress(name) && input.IsKeyBindingRelease(name))
  {
  }

  /** Two bindings, one listing Shift and one not, are never active in the
      same frame, whatever inputs they name: a bare key and the same key with
      Shift cannot both fire. */
  lemma BareAndShiftedExclusive(input: Input, bare: string, shifted: string, state: FrameState)
    requires input.HasKeyBinding(bare) && input.HasKeyBinding(shifted)
    requires Shift !in input.keybindings[bare].modifiers[..]
    requires Shift in input.keybindings[shifted].modifiers[..]
    ensures !(input.IsKeyBindingActive(bare, state) && input.IsKeyBindingActive(shifted, state))
  {
    DifferentModifiersExclusive(input.keybindings[shifted].modifiers[..], input.keybindings[bare].modifiers[..],
                                Shift, input.KeyboardAt(state));
  }

  /** With a positive threshold, a stick is never pushed both ways along one
      axis. */
  lemma OppositeDirectionsExclusive(input: Input, stick: Thumbstick, state: FrameState)
    requires input.thumbstickThreshold > 0.0
    ensures !(input.IsThumbstickDirectionActive(Up, stick, state) && input.IsThumbstickDirectionActive(Down, stick, state))
    ensures !(input.IsThumbstickDirectionActive(LeftDirection, stick, state) && input.IsThumbstickDirectionActive(RightDirection, stick, state))
  {
  }

  /** With a threshold of zero or less, every thumbstick binding is active. */
  lemma ThumbstickActiveBelowZeroThreshold(input: Input, stick: Thumbstick, state: FrameState)
    requires input.thumbstickThreshold <= 0.0
    ensures input.IsThumbstickActive(stick, state)
  {
  }

  /** Removing a name twice is the same as removing it once. */
  method RemoveTwice(input: Input, name: string)
    modifies input
    ensures input.keybindings == old(input.keybindings) - {name}
  {
    input.RemoveKeyBinding(name);
    input.RemoveKeyBinding(name);
  }

  /** Updating a binding has the same effect as adding it. */
  method UpdateIsAdd(a: Input, b: Input, name: string, binding: InputBinding)
    requires a != b && a.keybindings == b.keybindings
    modifies a, b
    ensures a.keybindings == b.keybindings
  {
    a.UpdateKeyBinding(name, binding);
    b.AddKeyBinding(name, binding);
  }
}
