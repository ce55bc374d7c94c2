/** The operation-tree interpreter, `OperationContext::process_operation` and
    `process_operations`: a tree of operations (navigate to a screen, store the text at a position
    in a variable, write a literal text or a stored variable at a position, press a key) is walked
    from its root, and conditional nodes choose between two subtrees by asking a condition about
    the variables and the provider.

    The interpreter is generic over its provider (the `MutableMainframeProvider` trait): here the
    provider is a `Host` that records the calls made on it, and whose answers (the text at a
    position, whether a navigation succeeded) are functions of the calls made on it before. A
    condition reads the provider too, and each evaluation is recorded as a call, so the same
    condition asked on a later pass may answer differently, as it would of a live screen. The
    screens to navigate to and the conditions are just as opaque to the interpreter. */
module Interpreter {
  import opened Common

  /** A key of the key catalogue; the interpreter only forwards it. */
  type KeyCode = nat

  datatype KeyPress = KeyPress(keyCode: KeyCode, isCtrlKeyHeld: bool, isShiftKeyHeld: bool, isAltKeyHeld: bool)

  /** A screen to navigate to (a `&dyn Screen` the interpreter hands its provider to). */
  type ScreenId = nat

  /** The variable store, `value_per_variable_name`. */
  type Variables = map<string, string>

  datatype SetSource = RawText(text: string) | StoredVariable(variableName: string)

  /** The operations; `PressKey` exists only in the draft that has a `KeyPress` operation. */
  datatype Operation =
    | Navigate(screen: ScreenId)
    | Store(x: Byte, y: Byte, length: Byte, variableName: string)
    | Set(x: Byte, y: Byte, source: SetSource)
    | PressKey(keyPress: KeyPress)

  /** A call the interpreter makes on its provider. */
  datatype Call =
    | ReadText(x: Byte, y: Byte, length: Byte)   // get_text_at_location
    | WriteText(x: Byte, y: Byte, text: string)  // set_text_at_location
    | TryNavigate(screen: ScreenId)              // screen.try_navigate_to(provider)
    | ForwardKey(keyPress: KeyPress)             // send_key_press
    | Inspection                                 // the reads one evaluation of a condition makes

  /** A condition's boxed function: a question about the variables and the provider, here the
      calls made on the provider so far (earlier evaluations of conditions included). */
  type Condition = (Variables, seq<Call>) -> bool

  datatype Node =
    | Single(operation: Operation, next: Option<Node>)
    | Conditional(condition: Condition, consequent: Node, alternative: Option<Node>)

  /** How the provider and the screens answer, given the calls made on the provider before. */
  datatype Behaviour = Behaviour(textAt: (seq<Call>, Byte, Byte, Byte) -> string, navigates: (seq<Call>, ScreenId) -> bool)

  /** What the interpreter has done so far: its variables and the calls it made. */
  datatype State = State(variables: Variables, calls: seq<Call>)

  /** The state and the node the loop of `process_operations` holds (`None` once it is done). */
  datatype Machine = Machine(state: State, current: Option<Node>)

  // ---------------------------------------------------------------------------------------------
  // One operation

  /** `process_operation`. */
  function Perform(b: Behaviour, st: State, op: Operation): State {
    match op
    case Navigate(screen) => st.(calls := st.calls + [TryNavigate(screen)])
    case Store(x, y, length, name) =>
      State(st.variables[name := b.textAt(st.calls, x, y, length)], st.calls + [ReadText(x, y, length)])
    case Set(x, y, RawText(text)) => st.(calls := st.calls + [WriteText(x, y, text)])
    case Set(x, y, StoredVariable(name)) =>
      if name in st.variables then st.(calls := st.calls + [WriteText(x, y, st.variables[name])]) else st
    case PressKey(k) => st.(calls := st.calls + [ForwardKey(k)])
  }

  /** `Store` sets its variable to the text read at its position, overwriting any value it had, and
      leaves every other variable as it was. */
  lemma StoreOverwrites(b: Behaviour, st: State, x: Byte, y: Byte, length: Byte, name: string)
    ensures var r := Perform(b, st, Store(x, y, length, name));
      && name in r.variables && r.variables[name] == b.textAt(st.calls, x, y, length)
      && (forall v | v != name :: (v in r.variables <==> v in st.variables))
      && (forall v | v != name && v in st.variables :: r.variables[v] == st.variables[v])
      && r.calls == st.calls + [ReadText(x, y, length)]
  {
  }

  /** Only `Store` changes the variables. */
  lemma OnlyStoreChangesVariables(b: Behaviour, st: State, op: Operation)
    requires !op.Store?
    ensures Perform(b, st, op).variables == st.variables
  {
  }

  /** Every operation makes one call on the provider, except a `Set` from a variable that is not
      stored, which makes none and changes nothing. */
  lemma CallsOfPerform(b: Behaviour, st: State, op: Operation)
    ensures st.calls <= Perform(b, st, op).calls
    ensures op.Set? && op.source.StoredVariable? && op.source.variableName !in st.variables ==> Perform(b, st, op) == st
    ensures !(op.Set? && op.source.StoredVariable? && op.source.variableName !in st.variables) ==>
              |Perform(b, st, op).calls| == |st.calls| + 1
  {
  }

  /** A `Set` writes at its position the literal text, or the value stored under its variable. */
  lemma SetWrites(b: Behaviour, st: State, x: Byte, y: Byte, source: SetSource)
    ensures source.RawText? ==> Perform(b, st, Set(x, y, source)).calls == st.calls + [WriteText(x, y, source.text)]
    ensures source.StoredVariable? && source.variableName in st.variables ==>
              Perform(b, st, Set(x, y, source)).calls == st.calls + [WriteText(x, y, st.variables[source.variableName])]
  {
  }

  /** `Navigate` hands the provider to the screen and ignores whether the navigation succeeded:
      the state after it is the same whatever the screen answers. */
  lemma NavigationIgnored(b: Behaviour, st: State, screen: ScreenId, answer: (seq<Call>, ScreenId) -> bool)
    ensures Perform(b, st, Navigate(screen)) == Perform(b.(navigates := answer), st, Navigate(screen))
    ensures Perform(b, st, Navigate(screen)) == State(st.variables, st.calls + [TryNavigate(screen)])
  {
  }

  /** A key press is forwarded to the provider; the variables are left alone. */
  lemma KeyPressForwarded(b: Behaviour, st: State, k: KeyPress)
    ensures Perform(b, st, PressKey(k)) == State(st.variables, st.calls + [ForwardKey(k)])
  {
  }

  // ---------------------------------------------------------------------------------------------
  // Walking the tree

  /** One pass of the loop of `process_operations`: a single node runs its operation and goes on to
      its successor; a conditional node evaluates its condition against the provider, then goes to
      its consequent when it holds, else to its alternative, and when it has none it stays where it
      is, to be evaluated again on the next pass. */
  function Step(b: Behaviour, st: State, node: Node): Machine {
    match node
    case Single(op, next) => Machine(Perform(b, st, op), next)
    case Conditional(condition, consequent, alternative) =>
      var inspected := st.(calls := st.calls + [Inspection]);
      if condition(st.variables, st.calls) then Machine(inspected, Some(consequent))
      else if alternative.Some? then Machine(inspected, alternative)
      else Machine(inspected, Some(node))
  }

  /** At most `fuel` passes of the loop from `current`. */
  function Walk(b: Behaviour, st: State, current: Option<Node>, fuel: nat): Machine
    decreases fuel
  {
    if fuel == 0 || current.None? then Machine(st, current)
    else
      var m := Step(b, st, current.value);
      Walk(b, m.state, m.current, fuel - 1)
  }

  /** A single node runs its operation, then continues with its successor, or stops if it has none. */
  lemma StepSingle(b: Behaviour, st: State, op: Operation, next: Option<Node>, fuel: nat)
    ensures Step(b, st, Single(op, next)) == Machine(Perform(b, st, op), next)
    ensures Walk(b, st, Some(Single(op, next)), fuel + 1) == Walk(b, Perform(b, st, op), next, fuel)
    ensures next.None? ==> Walk(b, st, Some(Single(op, next)), fuel + 1) == Machine(Perform(b, st, op), None)
  {
  }

  /** A conditional node only reads: the variables are unchanged, the one new call is the
      condition's inspection of the provider, and the loop moves to the consequent, the
      alternative, or nowhere. */
  lemma StepConditional(b: Behaviour, st: State, node: Node)
    requires node.Conditional?
    ensures Step(b, st, node).state == State(st.variables, st.calls + [Inspection])
    ensures node.condition(st.variables, st.calls) ==> Step(b, st, node).current == Some(node.consequent)
    ensures !node.condition(st.variables, st.calls) && node.alternative.Some? ==> Step(b, st, node).current == node.alternative
    ensures !node.condition(st.variables, st.calls) && node.alternative.None? ==> Step(b, st, node).current == Some(node)
  {
  }

  /** `k` evaluations of conditions in a row. */
  function Inspections(k: nat): (r: seq<Call>)
    ensures |r| == k && forall i | 0 <= i < k :: r[i] == Inspection
  {
    seq(k, _ => Inspection)
  }

  lemma InspectionsShift(calls: seq<Call>, k: nat)
    ensures calls + [Inspection] + Inspections(k) == calls + Inspections(k + 1)
    ensures calls + Inspections(k) + [Inspection] == calls + Inspections(k + 1)
  {
  }

  /** A conditional node without an alternative is a polling wait: as long as its condition is false
      at every evaluation, the loop stays at that node, and all it does is evaluate the condition
      once per pass; the variables and the other calls are untouched. */
  lemma {:induction false} Stalls(b: Behaviour, st: State, node: Node, fuel: nat)
    requires node.Conditional? && node.alternative.None?
    requires forall k | 0 <= k < fuel :: !node.condition(st.variables, st.calls + Inspections(k))
    ensures Walk(b, st, Some(node), fuel) == Machine(State(st.variables, st.calls + Inspections(fuel)), Some(node))
    decreases fuel
  {
    if fuel > 0 {
      assert st.calls + Inspections(0) == st.calls;
      var next := State(st.variables, st.calls + [Inspection]);
      forall k | 0 <= k < fuel - 1
        ensures !node.condition(next.variables, next.calls + Inspections(k))
      {
        InspectionsShift(st.calls, k);
      }
      Stalls(b, next, node, fuel - 1);
      InspectionsShift(st.calls, fuel - 1);
    }
  }

  /** The wait ends at the first evaluation that finds the condition true: the loop then moves to the
      consequent, having evaluated the condition once per pass. */
  lemma LeavesWhenTrue(b: Behaviour, st: State, node: Node, k: nat)
    requires node.Conditional? && node.alternative.None?
    requires forall j | 0 <= j < k :: !node.condition(st.variables, st.calls + Inspections(j))
    requires node.condition(st.variables, st.calls + Inspections(k))
    ensures Walk(b, st, Some(node), k + 1) == Machine(State(st.variables, st.calls + Inspections(k + 1)), Some(node.consequent))
  {
    WalkSplits(b, st, Some(node), k, 1);
    Stalls(b, st, node, k);
    InspectionsShift(st.calls, k);
  }

  /** Running for `f + g` passes is running for `f` passes and then for `g` more. */
  lemma {:induction false} WalkSplits(b: Behaviour, st: State, current: Option<Node>, f: nat, g: nat)
    ensures Walk(b, st, current, f + g) == Walk(b, Walk(b, st, current, f).state, Walk(b, st, current, f).current, g)
    decreases f
  {
    if f > 0 && current.Some? {
      var m := Step(b, st, current.value);
      WalkSplits(b, m.state, m.current, f - 1, g);
      assert f + g - 1 == (f - 1) + g;
    }
  }

  /** The operations one after another. */
  function PerformAll(b: Behaviour, st: State, ops: seq<Operation>): State
    decreases |ops|
  {
    if |ops| == 0 then st else PerformAll(b, Perform(b, st, ops[0]), ops[1..])
  }

  /** The straight-line tree of single nodes running `ops` in order. */
  function Chain(ops: seq<Operation>): Option<Node>
    decreases |ops|
  {
    if |ops| == 0 then None else Some(Single(ops[0], Chain(ops[1..])))
  }

  /** A straight-line tree runs its operations in order and is done after one pass per node. */
  lemma {:induction false} WalkChain(b: Behaviour, st: State, ops: seq<Operation>)
    ensures Walk(b, st, Chain(ops), |ops|) == Machine(PerformAll(b, st, ops), None)
    decreases |ops|
  {
    if |ops| > 0 {
      WalkChain(b, Perform(b, st, ops[0]), ops[1..]);
    }
  }

  /** Every conditional node of the tree has an alternative. */
  predicate AlwaysAlternative(node: Node) {
    match node
    case Single(_, next) => next.None? || AlwaysAlternative(next.value)
    case Conditional(_, consequent, alternative) =>
      alternative.Some? && AlwaysAlternative(consequent) && AlwaysAlternative(alternative.value)
  }

  /** The number of nodes on the longest path from the root. */
  function Depth(node: Node): nat {
    match node
    case Single(_, next) => if next.None? then 1 else 1 + Depth(next.value)
    case Conditional(_, consequent, alternative) =>
      var a := if alternative.None? then 0 else Depth(alternative.value);
      1 + (if Depth(consequent) < a then a else Depth(consequent))
  }

  /** Every pass moves to a child of the node, so when every conditional node has an alternative the
      loop is done after at most one pass per level of the tree, whatever the conditions answer. */
  lemma {:induction false} HaltsWithAlternatives(b: Behaviour, st: State, node: Node, fuel: nat)
    requires AlwaysAlternative(node) && Depth(node) <= fuel
    ensures Walk(b, st, Some(node), fuel).current == None
    decreases node
  {
    var m := Step(b, st, node);
    match node
    case Single(_, next) =>
      if next.Some? {
        HaltsWithAlternatives(b, m.state, next.value, fuel - 1);
      }
    case Conditional(condition, consequent, alternative) =>
      if condition(st.variables, st.calls) {
        HaltsWithAlternatives(b, m.state, consequent, fuel - 1);
      } else {
        HaltsWithAlternatives(b, m.state, alternative.value, fuel - 1);
      }
  }

  // ---------------------------------------------------------------------------------------------
  // The provider and the context

  /** The provider the interpreter is given, as far as the interpreter can observe it. */
  class Host {
    const behaviour: Behaviour
    var calls: seq<Call>

    constructor(behaviour: Behaviour)
      ensures this.behaviour == behaviour && calls == []
    {
      this.behaviour := behaviour;
      calls := [];
    }

    method GetTextAtLocation(x: Byte, y: Byte, length: Byte) returns (text: string)
      modifies this`calls
      ensures text == behaviour.textAt(old(calls), x, y, length)
      ensures calls == old(calls) + [ReadText(x, y, length)]
    {
      text := behaviour.textAt(calls, x, y, length);
      calls := calls + [ReadText(x, y, length)];
    }

    method SetTextAtLocation(x: Byte, y: Byte, text: string)
      modifies this`calls
      ensures calls == old(calls) + [WriteText(x, y, text)]
    {
      calls := calls + [WriteText(x, y, text)];
    }

    /** `screen.try_navigate_to(provider)`. */
    method TryNavigateTo(screen: ScreenId) returns (isSuccessful: bool)
      modifies this`calls
      ensures isSuccessful == behaviour.navigates(old(calls), screen)
      ensures calls == old(calls) + [TryNavigate(screen)]
    {
      isSuccessful := behaviour.navigates(calls, screen);
      calls := calls + [TryNavigate(screen)];
    }

    method SendKeyPress(keyPress: KeyPress)
      modifies this`calls
      ensures calls == old(calls) + [ForwardKey(keyPress)]
    {
      calls := calls + [ForwardKey(keyPress)];
    }

    /** `(operation.condition)(&variables, provider)`: the condition reads the provider, and the
        reads it makes are recorded as one `Inspection`. */
    method Evaluate(condition: Condition, variables: Variables) returns (holds: bool)
      modifies this`calls
      ensures holds == condition(variables, old(calls))
      ensures calls == old(calls) + [Inspection]
    {
      holds := condition(variables, calls);
      calls := calls + [Inspection];
    }
  }

  /** `OperationContext`: the variable store the operations share. */
  class OperationContext {
    var variables: Variables

    constructor(variables: Variables)
      ensures this.variables == variables
    {
      this.variables := variables;
    }

    /** `process_operation`. */
    method ProcessOperation(provider: Host, operation: Operation)
      modifies this`variables, provider`calls
      ensures State(variables, provider.calls) == Perform(provider.behaviour, State(old(variables), old(provider.calls)), operation)
    {
      match operation
      case Navigate(screen) =>
        var isSuccessful := provider.TryNavigateTo(screen);
      case Store(x, y, length, name) =>
        var value := provider.GetTextAtLocation(x, y, length);
        variables := variables[name := value];
      case Set(x, y, source) =>
        match source {
          case RawText(text) =>
            provider.SetTextAtLocation(x, y, text);
          case StoredVariable(name) =>
            if name in variables {
              provider.SetTextAtLocation(x, y, variables[name]);
            }
        }
      case PressKey(keyPress) =>
        provider.SendKeyPress(keyPress);
    }

    /** `process_operations`, for at most `fuel` passes of its loop: returns the node it would
        process next, `None` once the tree is done. */
    method ProcessOperations(provider: Host, operations: Node, fuel: nat) returns (current: Option<Node>)
      modifies this`variables, provider`calls
      ensures Machine(State(variables, provider.calls), current)
              == Walk(provider.behaviour, State(old(variables), old(provider.calls)), Some(operations), fuel)
    {
      ghost var goal := Walk(provider.behaviour, State(variables, provider.calls), Some(operations), fuel);
      current := Some(operations);
      var passes := 0;
      while passes < fuel && current.Some?
        invariant passes <= fuel
        invariant Walk(provider.behaviour, State(variables, provider.calls), current, fuel - passes) == goal
        decreases fuel - passes
      {
        match current.value {
          case Single(operation, next) =>
            ProcessOperation(provider, operation);
            current := next;
          case Conditional(condition, consequent, alternative) =>
            var holds := provider.Evaluate(condition, variables);
            if holds {
              current := Some(consequent);
            } else if alternative.Some? {
              current := alternative;
            }
        }
        passes := passes + 1;
      }
    }
  }
}
