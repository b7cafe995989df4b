/**
 * The sections of the virtual machine: their loading with sequential ids,
 * their variable stacks, and the invocation loop that runs their commands.
 *
 * The command dispatcher, the VM's variable declaration, the parameter
 * matcher, the recursion ceiling and the modification of a variable live
 * outside this model; they are passed in as `Collaborators` and as a
 * `modifyVar` function. They are total functions, so each call is taken to
 * return normally; nothing else is assumed about them.
 */
module VmSection {
  import opened Common
  import opened Parser

  /** A variable of the VM: its identifier and value. */
  datatype Variable = Variable(id: string, value: Value)

  /** An actual argument of an invocation, carrying the variable it binds. */
  datatype Parameter = Parameter(variable: Variable)

  /** A control-flow signal produced by a command. */
  datatype Signal = Quit(code: int) | Return

  /** The VM as seen by a section: some state `S` and the last signal observed. */
  datatype Vm<S> = Vm(state: S, lastSignal: Option<Signal>)

  /** The code a section run calls but that is not part of this model. */
  datatype Collaborators<!S> = Collaborators(
    /** `command::run`: executes one command, may change the VM, may yield a signal. */
    run: (Command, Vm<S>) -> (Option<Signal>, Vm<S>),
    /** `VM::declare_variable`. */
    declareVariable: (Vm<S>, Variable) -> Vm<S>,
    /** `Parameter::matches`. */
    matches: (seq<Parameter>, seq<ExpectedParameter>) -> bool,
    /** `MAX_RECURSION`. */
    maxRecursion: nat)

  /** The failures that stop the VM (a panic in the source). */
  datatype Fault =
    | EmptyStack
    | AlreadyDeclared(id: string)
    | RecursionLimit
    | ArgumentMismatch(section: string)

  /** How an invocation of a section ends: normally, by ending the program with
      an exit code (`process::exit`), or by a fault. */
  datatype RunResult = Completed | Exited(code: int) | Failed(fault: Fault)

  // The stack.

  predicate HasId(s: seq<Variable>, name: string) {
    exists i :: 0 <= i < |s| && s[i].id == name
  }

  /** `i` is the position of the first entry of `s` called `name`. */
  predicate IsFirstWithId(s: seq<Variable>, name: string, i: int) {
    0 <= i < |s| && s[i].id == name && forall j :: 0 <= j < i ==> s[j].id != name
  }

  /** `s` with every entry called `name` modified to `value`. */
  function ModifyAll(s: seq<Variable>, name: string, value: Value, modifyVar: (Variable, Value) -> Variable): seq<Variable>
  {
    seq(|s|, i requires 0 <= i < |s| => if s[i].id == name then modifyVar(s[i], value) else s[i])
  }

  // Loading.

  /** The sections of all units, unit by unit, each unit's in source order. */
  function AllSections(units: seq<Unit>): seq<ParsedSection>
  {
    if units == [] then [] else units[0].sects + AllSections(units[1..])
  }

  lemma {:induction false} AllSectionsAppend(units: seq<Unit>, u: Unit)
    ensures AllSections(units + [u]) == AllSections(units) + u.sects
  {
    if units == [] {
      assert units + [u] == [u];
      assert [u][1..] == [];
    } else {
      assert (units + [u])[1..] == units[1..] + [u];
      AllSectionsAppend(units[1..], u);
    }
  }

  /** `s` is the section loaded from `p` under id `id`. */
  ghost predicate Loaded(s: Section, p: ParsedSection, id: nat)
    reads s
  {
    s.commands == p.lines && s.args == p.paramList && s.name == p.name &&
    s.id == id && s.rec == 1 && s.stack == []
  }

  ghost predicate Distinct(res: seq<Section>) {
    forall i, j :: 0 <= i < j < |res| ==> res[i] != res[j]
  }

  // Running.

  /** One command: run it and record its signal as the VM's last signal. */
  function Step<S>(cmd: Command, vm: Vm<S>, run: (Command, Vm<S>) -> (Option<Signal>, Vm<S>)): Vm<S>
  {
    var outcome := run(cmd, vm);
    outcome.1.(lastSignal := outcome.0)
  }

  /** The VM after stepping through every command of `cmds`, regardless of signals. */
  function Fold<S>(cmds: seq<Command>, vm: Vm<S>, run: (Command, Vm<S>) -> (Option<Signal>, Vm<S>)): Vm<S>
  {
    if cmds == [] then vm else Fold(cmds[1..], Step(cmds[0], vm, run), run)
  }

  /** The signal command `k` yields when every command before it has run. */
  function SignalAt<S>(cmds: seq<Command>, vm: Vm<S>, run: (Command, Vm<S>) -> (Option<Signal>, Vm<S>), k: nat): Option<Signal>
    requires k < |cmds|
  {
    run(cmds[k], Fold(cmds[..k], vm, run)).0
  }

  /** Why the command loop stopped. */
  datatype Stop = Finished | Returned | Quitted(code: int)

  /** The VM after the command loop, how many commands it ran, and why it stopped. */
  datatype Execution<S> = Execution(vm: Vm<S>, ran: nat, stop: Stop)

  /** The command loop: a `Return` stops it, a `Quit` ends the program. */
  function RunCommands<S>(cmds: seq<Command>, vm: Vm<S>, run: (Command, Vm<S>) -> (Option<Signal>, Vm<S>)): (e: Execution<S>)
    ensures e.ran <= |cmds|
    ensures e.stop == Finished ==> e.ran == |cmds|
    ensures e.stop != Finished ==> e.ran >= 1
  {
    if cmds == [] then Execution(vm, 0, Finished)
    else
      var vm1 := Step(cmds[0], vm, run);
      match vm1.lastSignal
      case Some(Return) => Execution(vm1, 1, Returned)
      case Some(Quit(code)) => Execution(vm1, 1, Quitted(code))
      case None =>
        var rest := RunCommands(cmds[1..], vm1, run);
        rest.(ran := rest.ran + 1)
  }

  /** The variable that holds the running section's name. */
  function Jaula(name: string): Variable {
    Variable("JAULA", Str(name))
  }

  function ArgVariables(passed: seq<Parameter>): seq<Variable> {
    seq(|passed|, i requires 0 <= i < |passed| => passed[i].variable)
  }

  /** The variables an invocation binds, in binding order. */
  function Bindings(name: string, passed: seq<Parameter>): seq<Variable> {
    [Jaula(name)] + ArgVariables(passed)
  }

  /** Declares `vars` one after the other. */
  function DeclareAll<S>(vm: Vm<S>, vars: seq<Variable>, declare: (Vm<S>, Variable) -> Vm<S>): Vm<S>
    decreases |vars|
  {
    if vars == [] then vm else DeclareAll(declare(vm, vars[0]), vars[1..], declare)
  }

  /** The whole effect of an invocation. */
  datatype Invocation<S> = Invocation(vm: Vm<S>, ran: nat, result: RunResult)

  /** An invocation of a section with the given name, parameters, commands and
      recursion counter: check the ceiling and the arguments, bind, run the commands. */
  function Invoke<S>(name: string, params: seq<ExpectedParameter>, commands: seq<Command>, rec: nat,
                     vm: Vm<S>, passed: seq<Parameter>, ops: Collaborators<S>): Invocation<S>
  {
    if rec >= ops.maxRecursion then Invocation(vm, 0, Failed(RecursionLimit))
    else if !ops.matches(passed, params) then Invocation(vm, 0, Failed(ArgumentMismatch(name)))
    else
      var e := RunCommands(commands, DeclareAll(vm, Bindings(name, passed), ops.declareVariable), ops.run);
      Invocation(e.vm, e.ran, if e.stop.Quitted? then Exited(e.stop.code) else Completed)
  }

  /** A section of the VM. */
  class Section {
    var commands: seq<Command>
    var args: seq<ExpectedParameter>
    var name: string
    var id: nat
    var rec: nat
    var stack: seq<Variable>

    /** Builds the section for parsed section `section` under id `id`. */
    constructor FromParser(section: ParsedSection, id: nat)
      ensures commands == section.lines && args == section.paramList && name == section.name
      ensures this.id == id && rec == 1 && stack == []
    {
      commands := section.lines;
      args := section.paramList;
      name := section.name;
      this.id := id;
      rec := 1;
      stack := [];
    }

    /** The sections of one unit, numbered from `vmid`; also returns the next free id. */
    static method FromUnit(unit: Unit, vmid: nat) returns (res: seq<Section>, next: nat)
      ensures next == vmid + |unit.sects| && |res| == |unit.sects|
      ensures forall i :: 0 <= i < |res| ==> Loaded(res[i], unit.sects[i], vmid + i)
      ensures forall i :: 0 <= i < |res| ==> fresh(res[i])
      ensures Distinct(res)
    {
      res := [];
      next := vmid;
      for k := 0 to |unit.sects|
        invariant next == vmid + k && |res| == k
        invariant forall i :: 0 <= i < k ==> Loaded(res[i], unit.sects[i], vmid + i)
        invariant forall i :: 0 <= i < k ==> fresh(res[i])
        invariant Distinct(res)
      {
        var s := new Section.FromParser(unit.sects[k], next);
        res := res + [s];
        next := next + 1;
      }
    }

    /** The sections of all units, with ids 0, 1, 2, ... in unit-then-section order. */
    static method LoadAll(units: seq<Unit>) returns (res: seq<Section>)
      ensures |res| == |AllSections(units)|
      ensures forall i :: 0 <= i < |res| ==> Loaded(res[i], AllSections(units)[i], i)
      ensures forall i :: 0 <= i < |res| ==> fresh(res[i])
      ensures Distinct(res)
    {
      res := [];
      var vmid: nat := 0;
      for k := 0 to |units|
        invariant vmid == |res| == |AllSections(units[..k])|
        invariant forall i :: 0 <= i < |res| ==> Loaded(res[i], AllSections(units[..k])[i], i)
        invariant forall i :: 0 <= i < |res| ==> fresh(res[i])
        invariant Distinct(res)
      {
        AllSectionsAppend(units[..k], units[k]);
        assert units[..k + 1] == units[..k] + [units[k]];
        var tmp;
        tmp, vmid := FromUnit(units[k], vmid);
        res := res + tmp;
      }
      assert units[..|units|] == units;
    }

    /** The position of the first stack entry called `name`; the stack must not be empty. */
    method GetVar(name: string) returns (r: Result<Option<nat>, Fault>)
      ensures stack == [] <==> r == Err(EmptyStack)
      ensures r.Ok? && r.value.Some? ==> IsFirstWithId(stack, name, r.value.value)
      ensures r.Ok? && r.value.None? ==> !HasId(stack, name)
      ensures stack != [] ==> r.Ok? && (r.value.Some? <==> HasId(stack, name))
    {
      if stack == [] {
        return Err(EmptyStack);
      }
      var i := 0;
      while i < |stack|
        invariant 0 <= i <= |stack|
        invariant forall j :: 0 <= j < i ==> stack[j].id != name
      {
        if stack[i].id == name {
          return Ok(Some(i));
        }
        i := i + 1;
      }
      return Ok(None);
    }

    /** Pushes `v`; fails if an entry with its identifier is already on the stack. */
    method DeclVar(v: Variable) returns (r: Outcome<Fault>)
      modifies this`stack
      ensures HasId(old(stack), v.id) ==> r == Fail(AlreadyDeclared(v.id)) && stack == old(stack)
      ensures !HasId(old(stack), v.id) ==> r == Pass && stack == old(stack) + [v]
    {
      for i := 0 to |stack|
        invariant forall j :: 0 <= j < i ==> stack[j].id != v.id
      {
        if stack[i].id == v.id {
          return Fail(AlreadyDeclared(stack[i].id));
        }
      }
      stack := stack + [v];
      r := Pass;
    }

    /** Modifies the first entry called `name`; says whether there was one. */
    method ModVar(name: string, value: Value, modifyVar: (Variable, Value) -> Variable) returns (r: Result<bool, Fault>)
      modifies this`stack
      ensures old(stack) == [] ==> r == Err(EmptyStack)
      ensures old(stack) != [] ==> r.Ok? && (r.value <==> HasId(old(stack), name))
      ensures r == Ok(true) ==>
                exists i :: IsFirstWithId(old(stack), name, i) && stack == old(stack)[i := modifyVar(old(stack)[i], value)]
      ensures r != Ok(true) ==> stack == old(stack)
    {
      var found := GetVar(name);
      match found
      case Err(e) => r := Err(e);
      case Ok(Some(i)) =>
        stack := stack[i := modifyVar(stack[i], value)];
        r := Ok(true);
      case Ok(None) => r := Ok(false);
    }

    /** Modifies every entry called `name`, then pushes a new one with that name. */
    method DeclOrMod(name: string, value: Value, modifyVar: (Variable, Value) -> Variable)
      modifies this`stack
      ensures stack == ModifyAll(old(stack), name, value, modifyVar) + [Variable(name, value)]
      ensures |stack| == |old(stack)| + 1 && stack[|stack| - 1].id == name
    {
      for i := 0 to |stack|
        invariant |stack| == |old(stack)|
        invariant stack[..i] == ModifyAll(old(stack)[..i], name, value, modifyVar)
        invariant stack[i..] == old(stack)[i..]
      {
        if stack[i].id == name {
          stack := stack[i := modifyVar(stack[i], value)];
        }
        assert old(stack)[..i + 1][..i] == old(stack)[..i];
      }
      assert old(stack)[..|old(stack)|] == old(stack);
      var v := Variable(name, value);
      stack := stack + [v];
    }

    /** Runs this section in `vm` with the actual arguments `passed`. */
    method Run<S>(vm: Vm<S>, passed: seq<Parameter>, ops: Collaborators<S>) returns (vm': Vm<S>, r: RunResult)
      ensures vm' == Invoke(name, args, commands, rec, vm, passed, ops).vm
      ensures r == Invoke(name, args, commands, rec, vm, passed, ops).result
    {
      if rec >= ops.maxRecursion {
        return vm, Failed(RecursionLimit);
      }
      if !ops.matches(passed, args) {
        return vm, Failed(ArgumentMismatch(name));
      }
      ghost var bindings := Bindings(name, passed);
      var jaula := Jaula(name);
      vm' := ops.declareVariable(vm, jaula);
      assert bindings[1..] == ArgVariables(passed)[0..];
      for k := 0 to |passed|
        invariant DeclareAll(vm, bindings, ops.declareVariable) ==
                  DeclareAll(vm', ArgVariables(passed)[k..], ops.declareVariable)
      {
        assert ArgVariables(passed)[k..][1..] == ArgVariables(passed)[k + 1..];
        vm' := ops.declareVariable(vm', passed[k].variable);
      }
      ghost var bound := vm';
      ghost var whole := RunCommands(commands, bound, ops.run);
      var i := 0;
      while i < |commands|
        invariant 0 <= i <= |commands|
        invariant whole == var e := RunCommands(commands[i..], vm', ops.run); e.(ran := e.ran + i)
      {
        assert commands[i..][1..] == commands[i + 1..];
        var outcome := ops.run(commands[i], vm');
        vm' := outcome.1.(lastSignal := outcome.0);
        match outcome.0
        case Some(Quit(code)) =>
          return vm', Exited(code);
        case Some(Return) =>
          break;
        case None =>
          i := i + 1;
      }
      r := Completed;
    }
  }

  // Properties of the command loop.

  lemma SignalAtShift<S>(cmds: seq<Command>, vm: Vm<S>, run: (Command, Vm<S>) -> (Option<Signal>, Vm<S>), k: nat)
    requires k + 1 < |cmds|
    ensures SignalAt(cmds, vm, run, k + 1) == SignalAt(cmds[1..], Step(cmds[0], vm, run), run, k)
  {
    assert cmds[..k + 1][1..] == cmds[1..][..k];
  }

  /** The command loop runs exactly its first `ran` commands, in order; none of them
      but the last yields a signal; it finishes only when no command signals; a stop is due
      to the last command's `Return` or `Quit`; the last signal recorded is that command's. */
  lemma {:induction false} RunCommandsSpec<S>(cmds: seq<Command>, vm: Vm<S>, run: (Command, Vm<S>) -> (Option<Signal>, Vm<S>))
    ensures var e := RunCommands(cmds, vm, run);
              e.vm == Fold(cmds[..e.ran], vm, run)
    ensures var e := RunCommands(cmds, vm, run);
              forall k :: 0 <= k < e.ran - 1 ==> SignalAt(cmds, vm, run, k).None?
    ensures var e := RunCommands(cmds, vm, run);
              e.stop == Finished ==> forall k :: 0 <= k < |cmds| ==> SignalAt(cmds, vm, run, k).None?
    ensures var e := RunCommands(cmds, vm, run);
              e.stop == Returned ==> SignalAt(cmds, vm, run, e.ran - 1) == Some(Return)
    ensures var e := RunCommands(cmds, vm, run);
              e.stop.Quitted? ==> SignalAt(cmds, vm, run, e.ran - 1) == Some(Quit(e.stop.code))
    ensures var e := RunCommands(cmds, vm, run);
              e.ran > 0 ==> e.vm.lastSignal == SignalAt(cmds, vm, run, e.ran - 1)
  {
    if cmds != [] {
      var vm1 := Step(cmds[0], vm, run);
      var e := RunCommands(cmds, vm, run);
      assert cmds[..0] == [];
      assert SignalAt(cmds, vm, run, 0) == vm1.lastSignal;
      if vm1.lastSignal.None? {
        var rest := RunCommands(cmds[1..], vm1, run);
        RunCommandsSpec(cmds[1..], vm1, run);
        assert cmds[..e.ran][1..] == cmds[1..][..rest.ran];
        forall k | 1 <= k < |cmds|
          ensures SignalAt(cmds, vm, run, k) == SignalAt(cmds[1..], vm1, run, k - 1)
        {
          SignalAtShift(cmds, vm, run, k - 1);
        }
      } else {
        assert cmds[..1][1..] == [];
      }
    }
  }

  /** When command `k` is the first to yield a signal, the loop runs exactly the
      commands up to `k`: nothing after `k` runs, and the commands after it do not matter. */
  lemma {:induction false} FirstSignalStops<S>(cmds: seq<Command>, vm: Vm<S>, run: (Command, Vm<S>) -> (Option<Signal>, Vm<S>), k: nat)
    requires k < |cmds|
    requires forall j :: 0 <= j < k ==> SignalAt(cmds, vm, run, j).None?
    requires SignalAt(cmds, vm, run, k).Some?
    ensures RunCommands(cmds, vm, run).ran == k + 1
    ensures SignalAt(cmds, vm, run, k) == Some(Return) ==> RunCommands(cmds, vm, run).stop == Returned
    ensures SignalAt(cmds, vm, run, k).value.Quit? ==>
              RunCommands(cmds, vm, run).stop == Quitted(SignalAt(cmds, vm, run, k).value.code)
    ensures RunCommands(cmds, vm, run) == RunCommands(cmds[..k + 1], vm, run)
  {
    assert cmds[..0] == [];
    var vm1 := Step(cmds[0], vm, run);
    assert SignalAt(cmds, vm, run, 0) == vm1.lastSignal;
    var prefix := cmds[..k + 1];
    assert prefix[0] == cmds[0];
    if k == 0 {
      assert prefix[..0] == [];
    } else {
      forall j | 0 <= j < k - 1
        ensures SignalAt(cmds[1..], vm1, run, j).None?
      {
        SignalAtShift(cmds, vm, run, j);
      }
      SignalAtShift(cmds, vm, run, k - 1);
      FirstSignalStops(cmds[1..], vm1, run, k - 1);
      assert prefix[1..] == cmds[1..][..k];
    }
  }

  // Properties of an invocation.

  /** Hitting the recursion ceiling, or arguments the matcher rejects, stop the
      invocation before any binding is made or any command runs. */
  lemma InvokeChecksFirst<S>(name: string, params: seq<ExpectedParameter>, commands: seq<Command>, rec: nat,
                             vm: Vm<S>, passed: seq<Parameter>, ops: Collaborators<S>)
    ensures rec >= ops.maxRecursion ==>
              Invoke(name, params, commands, rec, vm, passed, ops) == Invocation(vm, 0, Failed(RecursionLimit))
    ensures rec < ops.maxRecursion && !ops.matches(passed, params) ==>
              Invoke(name, params, commands, rec, vm, passed, ops) == Invocation(vm, 0, Failed(ArgumentMismatch(name)))
    ensures Invoke(name, params, commands, rec, vm, passed, ops).result.Failed? <==>
              rec >= ops.maxRecursion || !ops.matches(passed, params)
  {
  }

  /** `JAULA` is bound first, to the section's name, then each argument in argument order. */
  lemma BindingOrder(name: string, passed: seq<Parameter>)
    ensures |Bindings(name, passed)| == |passed| + 1
    ensures Bindings(name, passed)[0] == Variable("JAULA", Str(name))
    ensures forall i :: 0 <= i < |passed| ==> Bindings(name, passed)[i + 1] == passed[i].variable
  {
  }

  /** A successful invocation runs its commands in order after the bindings; the last
      signal recorded is that of the last command run; it exits with `code` exactly when
      the last command run yielded `Quit(code)`, and completes otherwise. */
  lemma InvokeRunsInOrder<S>(name: string, params: seq<ExpectedParameter>, commands: seq<Command>, rec: nat,
                             vm: Vm<S>, passed: seq<Parameter>, ops: Collaborators<S>)
    requires rec < ops.maxRecursion && ops.matches(passed, params)
    ensures var inv := Invoke(name, params, commands, rec, vm, passed, ops);
            var bound := DeclareAll(vm, Bindings(name, passed), ops.declareVariable);
              inv.ran <= |commands| &&
              inv.vm == Fold(commands[..inv.ran], bound, ops.run) &&
              (forall k :: 0 <= k < inv.ran - 1 ==> SignalAt(commands, bound, ops.run, k).None?) &&
              (inv.ran > 0 ==> inv.vm.lastSignal == SignalAt(commands, bound, ops.run, inv.ran - 1)) &&
              (inv.result.Exited? ==>
                 inv.ran > 0 && SignalAt(commands, bound, ops.run, inv.ran - 1) == Some(Quit(inv.result.code))) &&
              (inv.ran > 0 && SignalAt(commands, bound, ops.run, inv.ran - 1).Some? &&
               SignalAt(commands, bound, ops.run, inv.ran - 1).value.Quit? ==>
                 inv.result == Exited(SignalAt(commands, bound, ops.run, inv.ran - 1).value.code)) &&
              (inv.ran < |commands| ==> inv.result.Exited? || SignalAt(commands, bound, ops.run, inv.ran - 1) == Some(Return))
  {
    var bound := DeclareAll(vm, Bindings(name, passed), ops.declareVariable);
    RunCommandsSpec(commands, bound, ops.run);
  }

  /** A `Return` from command `k` of an invocation ends it normally after `k + 1`
      commands; a `Quit(code)` from command `k` ends the program with `code`. */
  lemma InvokeStopsAtFirstSignal<S>(name: string, params: seq<ExpectedParameter>, commands: seq<Command>, rec: nat,
                                    vm: Vm<S>, passed: seq<Parameter>, ops: Collaborators<S>, k: nat)
    requires rec < ops.maxRecursion && ops.matches(passed, params)
    requires k < |commands|
    requires var bound := DeclareAll(vm, Bindings(name, passed), ops.declareVariable);
               (forall j :: 0 <= j < k ==> SignalAt(commands, bound, ops.run, j).None?) &&
               SignalAt(commands, bound, ops.run, k).Some?
    ensures var inv := Invoke(name, params, commands, rec, vm, passed, ops);
            var bound := DeclareAll(vm, Bindings(name, passed), ops.declareVariable);
              inv.ran == k + 1 &&
              inv == Invoke(name, params, commands[..k + 1], rec, vm, passed, ops) &&
              (SignalAt(commands, bound, ops.run, k) == Some(Return) ==> inv.result == Completed) &&
              (SignalAt(commands, bound, ops.run, k).value.Quit? ==>
                 inv.result == Exited(SignalAt(commands, bound, ops.run, k).value.code))
  {
    var bound := DeclareAll(vm, Bindings(name, passed), ops.declareVariable);
    FirstSignalStops(commands, bound, ops.run, k);
  }
}
