# BIRL script executor — a Dafny model

BIRL runs a parsed script: a set of named sections, each a list of commands,
plus global constants. This project models two sequential pieces of its executor.

- **The old interpreter** (`src/interpreter.rs`, module `Interpreter`). An
  `Environment` holds a flat store of variables, the loaded sections and its
  options. Declaring a variable gives it an address equal to its position in the
  store, read as an `i16`; past 2^15 entries the address wraps (`ToAddress`). A name lookup is a linear scan that returns a placeholder variable when
  nothing matches. `Print` and `Println` write a value's text, and a symbol is
  resolved one level through the store. A section is run by finding the first
  section with that name and running its lines in order. Starting the program
  declares the constants `CUMPADE` (the user name) and `UM` (one), then runs the
  default section `SHOW`. Standard output is the ghost string `output` of the
  environment.
- **The VM sections** (`src/vm/section.rs`, module `VmSection`). Loading gives
  every section of every unit a sequential id. Each section has a variable stack
  with `get_var`, `decl_var`, `mod_var` and `decl_or_mod`. `run` is the
  invocation loop:
  - It checks the recursion ceiling and then the arguments.
  - It binds `JAULA` to the section name, then binds the arguments.
  - It runs the commands in order, recording each signal as the VM's last signal.
  - A `Return` stops the loop. A `Quit(code)` ends the program with `code`.

The supporting modules are:

- `Common`: `Option`, `Outcome` and `Result`.
- `Parser`: the parsed representation both executors read.
- `Text`: the decimal text of an integer, and the parser that reads it back.

Two kinds of failure become returned values instead of halts:

- A panic becomes a `Fault`. The interpreter returns `Fail(SectionNotFound(...))` or `Fail(UserUnset)`. The VM stack operations return `Err(EmptyStack)` or `Fail(AlreadyDeclared(...))`, and `run` returns `Failed(...)`.
- `process::exit(code)` becomes the `Exited(code)` result of `run`.

Code that `section.rs` calls but that is not shown is passed in as a
`Collaborators` value. Its fields are `run` (`command::run`), `declareVariable`
(`VM::declare_variable`), `matches` (`Parameter::matches`) and `maxRecursion`
(`MAX_RECURSION`). `Variable::modify` is passed as a function `modifyVar`.
They are total functions, so the model takes each call to return normally; nothing else is assumed about them. The VM is `Vm<S>`: a state `S` that the
model leaves open, plus `lastSignal`.

Behaviour of the code that the model follows:

- A lookup miss returns the placeholder variable (empty id, `Symbol("")`,
  address −1, constant), not a separate "not found" outcome.
- `run` reads the recursion counter but never changes it. It binds through the
  VM rather than a fresh frame of its own. The section's `stack` plays no part in `run`.
- `Quit` ends the program at once (`Exited`). It is not passed up through callers,
  because no caller is part of this model.
- Loading the interpreter does not reject duplicate section names. The first
  section with a name is the one that runs.
- The bootstrap constants are appended after the program's constants. A program
  constant with the same name therefore shadows them (`BootUmIsOne`).

## Model

| member | source | states |
|---|---|---|
| `Interpreter.ToAddress` | src/interpreter.rs:93 | `len() as i16`: the identity below 2^15; otherwise the length modulo 2^16, read as two's complement |
| `Interpreter.NewVariable` | src/interpreter.rs:23-30 | the placeholder has an empty id, value `Symbol("")`, address −1 and is constant |
| `Interpreter.VariableFrom` | src/interpreter.rs:32-39 | keeps the given id, value and constness; the address is −1 until declared |
| `Interpreter.NewOptions` | src/interpreter.rs:53-58 | the default section is `SHOW` and verbose is off |
| `Interpreter.FindVar` | src/interpreter.rs:121-127 | gives the position of the first variable with the name, or nothing exactly when no variable has it |
| `Interpreter.FindSection` | src/interpreter.rs:188-194 | gives the position of the first section with the name, or nothing exactly when no section has it |
| `Interpreter.Environment.constructor` | src/interpreter.rs:83-89 | a new environment has an empty store, no sections, the given options and no output |
| `Interpreter.Environment.DeclareVar` | src/interpreter.rs:92-98 | returns the old store length as an address; appends exactly the variable with that address; nothing else changes |
| `Interpreter.Environment.Interpret` | src/interpreter.rs:101-114 | appends one constant per declaration, at sequential addresses from the old length (the literal address 0 is overwritten), then the sections in input order |
| `Interpreter.Environment.GetVar` | src/interpreter.rs:117-130 | returns the first variable with the name, or the placeholder when there is none, in particular on an empty store; the store is not changed |
| `Interpreter.Environment.CommandPrint` | src/interpreter.rs:135-152 | writes the literal's text, or the text of the value that a symbol names; writes nothing for an unbound name or one that is bound to a symbol |
| `Interpreter.Environment.CommandPrintln` | src/interpreter.rs:155-172 | writes what `Print` would and then a newline, so `Println(Str(""))` writes a newline alone; writes nothing at all when the message cannot be displayed (an unbound name, or one bound to a symbol) |
| `Interpreter.Environment.ExecuteCommand` | src/interpreter.rs:175-182 | only `Print` and `Println` write; the store and sections never change |
| `Interpreter.Environment.ExecuteSection` | src/interpreter.rs:185-202 | fails with `SectionNotFound` and writes nothing when no section has the name; otherwise writes the lines of the first matching section, in order |
| `Interpreter.Environment.ExecuteLines` | src/interpreter.rs:198-200 | the output grows by what each line writes, in line order |
| `Interpreter.Environment.InitVariables` | src/interpreter.rs:205-216 | appends constant `CUMPADE` bound to the user name, then constant `UM` bound to `Integer(1)`, at the next two addresses; fails and declares nothing when `USER` is unset |
| `Interpreter.Environment.StartProgram` | src/interpreter.rs:219-223 | declares the bootstrap constants before any line runs, then runs the default section, or fails when the default section is missing |
| `Interpreter.AddressWraps` | src/interpreter.rs:93 | the address repeats every 2^16 lengths, and a length n from 2^15 to 2^16−1 becomes the negative address n − 2^16 |
| `Interpreter.ConstVariablesSequential` | src/interpreter.rs:101-110 | loaded constants keep their identifier and value, are constant, and have addresses base, base+1, … while the store has fewer than 2^15 entries |
| `Interpreter.ConstAddressesDistinct` | src/interpreter.rs:101-110 | no two loaded constants share an address while the store has at most 2^16 entries |
| `Interpreter.FindVarAppend` | src/interpreter.rs:121-127 | a search in an extended store finds a match in the old part first, or else the first match in the new part |
| `Interpreter.LookupAppend` | src/interpreter.rs:117-130 | a lookup in an extended store gives the old part's match when there is one, or else the new part's |
| `Interpreter.BootUmIsOne` | src/interpreter.rs:205-216 | after the bootstrap, `UM` resolves to `Integer(1)` and prints `1`, unless the program declared its own `UM`, which then wins |
| `Interpreter.BootCumpadeIsUser` | src/interpreter.rs:205-216 | after the bootstrap, printing `CUMPADE` writes the user name when the program did not declare a `CUMPADE` |
| `Interpreter.PrintLiteral` | src/interpreter.rs:137-141 | an integer, float, char or string prints exactly its own text |
| `Interpreter.PrintSymbol` | src/interpreter.rs:142-150 | a symbol prints the text of the value it names; an unbound name, or one bound to a symbol, prints nothing |
| `Interpreter.PrintlnIsPrintThenNewline` | src/interpreter.rs:155-172 | `Println` writes `Print`'s text plus one newline, and writes nothing exactly when the message cannot be displayed |
| `Interpreter.LinesTextAppend` | src/interpreter.rs:198-200 | the output of two runs of lines, one after the other, is the output of the first followed by that of the second |
| `Interpreter.LinesTextSnoc` | src/interpreter.rs:198-200 | running one more line appends exactly that line's output |
| `Interpreter.OtherCommandSilent` | src/interpreter.rs:180 | a command other than the two prints writes nothing |
| `Interpreter.PrintThenPrintlnExample` | src/interpreter.rs:135-172 | `Print(Integer(5))` then `Println(Str("x"))` writes exactly `5x` and a newline |
| `Text.NatText` | src/interpreter.rs:138 | the text of a natural number is non-empty and all digits, with no leading zero |
| `Text.IntText` | src/interpreter.rs:138 | an integer's text starts with `-` exactly when the integer is negative |
| `Text.NatTextValue` | src/interpreter.rs:138 | the digits written for `n` denote `n` |
| `Text.IntTextRoundTrip` | src/interpreter.rs:138 | reading back the text written for any integer gives that integer |
| `Text.IntTextInjective` | src/interpreter.rs:138 | different integers are written differently |
| `VmSection.Section.FromParser` | src/vm/section.rs:29-38 | copies the lines, parameter list and name unchanged, stores the id, sets the recursion counter to 1 and an empty stack |
| `VmSection.Section.FromUnit` | src/vm/section.rs:41-48 | one new, distinct section per parsed section, in order, with ids counting up from the given one; gives back the next free id |
| `VmSection.Section.LoadAll` | src/vm/section.rs:51-59 | as many sections as all units hold together, in unit-then-section order, with ids exactly 0, 1, …, n−1, all new and distinct |
| `VmSection.AllSectionsAppend` | src/vm/section.rs:54-57 | loading one more unit appends exactly that unit's sections |
| `VmSection.Section.GetVar` | src/vm/section.rs:62-72 | fails on an empty stack; otherwise gives the position of the first entry with the name, or nothing exactly when no entry has it |
| `VmSection.Section.DeclVar` | src/vm/section.rs:74-81 | fails with `AlreadyDeclared` and changes nothing when the id is on the stack; otherwise pushes exactly that variable |
| `VmSection.Section.ModVar` | src/vm/section.rs:83-91 | fails on an empty stack; returns true exactly when some entry has the name, and then modifies only the first such entry; otherwise the stack is unchanged |
| `VmSection.Section.DeclOrMod` | src/vm/section.rs:93-101 | modifies every entry with the name, then pushes a new variable with the name and value: always one entry longer |
| `VmSection.RunCommands` | src/vm/section.rs:121-133 | the loop runs at most all its commands; a finished loop ran all of them; a stopped loop ran at least one |
| `VmSection.Section.Run` | src/vm/section.rs:104-134 | the final VM and result are those of `Invoke`: the recursion and argument checks, then the bindings, then the command loop |
| `VmSection.RunCommandsSpec` | src/vm/section.rs:121-133 | exactly the first `ran` commands run, in order; none but the last of them signals; a finished loop met no signal; `Returned` and `Quitted(c)` come from the last command run; the last signal recorded is that command's |
| `VmSection.FirstSignalStops` | src/vm/section.rs:124-131 | when command k is the first to signal, exactly k+1 commands run; `Return` gives `Returned`, `Quit(c)` gives `Quitted(c)`, and the commands after k do not matter |
| `VmSection.InvokeChecksFirst` | src/vm/section.rs:105-115 | at or above the recursion ceiling, or with arguments the matcher rejects, the call fails before any binding or command and leaves the VM unchanged; it fails only then |
| `VmSection.BindingOrder` | src/vm/section.rs:116-120 | `JAULA`, bound to `Str(name)`, is bound first; then each argument's variable, in argument order |
| `VmSection.InvokeRunsInOrder` | src/vm/section.rs:116-133 | after the bindings, the commands run in order; the last signal is the last command's; the call exits with `c` exactly when the last command run quits with `c`; stopping early means `Return` or `Quit` |
| `VmSection.InvokeStopsAtFirstSignal` | src/vm/section.rs:121-131 | a `Return` at position k ends the call normally after k+1 commands; a `Quit(c)` at k exits with `c`; commands after k never run |

## Left out

- Real standard output is not modelled. The model appends each write to the ghost string `output`.
- The `{}` text of `FloatP` is not modelled. A float here carries the text `print!` would produce.
- `env::var("USER")` is an OS call. The user name is an `Option<string>` parameter, and `None` stands for the `unwrap` panic.
- `parser::value::parse_expr` is not part of this model. It is taken to produce `Str(user)` and `Integer(1)`, and its possible `unwrap` panic is not modelled.
- `EnvironmentOptions::set_verbose` and `set_default_section` set one field each and are left out. The `verbose` flag has no effect in the modelled code.
- The bodies of `command::run`, `VM::declare_variable`, `Parameter::matches`, `Variable::modify` and `MAX_RECURSION` are not part of this model. They are parameters, taken to return normally, and nothing else is assumed about their results.
- `VmSection.Section.Run`: a panic or `process::exit` inside `command::run`, `VM::declare_variable` or `Parameter::matches` (for example in a nested section invocation) is not modelled, because the collaborators are total functions. `Failed` therefore comes only from this section's own recursion and argument checks.
- `VmSection.Section.ModVar`: a `Variable::modify` that panics (for example on a constant) is not modelled, because `modifyVar` is total.
- `VmSection.Section.DeclOrMod`: the same holds for a panicking `Variable::modify`.
- `VmSection.Section.GetVar` returns the position of the entry instead of a mutable reference to it. `ModVar` updates the stack at that position.
- Diagnostic text of panics is not modelled. A `Fault` keeps only the failure kind and the section or variable name.
- The parser's integer width is not visible, so `Integer` carries an unbounded `int`.
- `VMID` is taken as `nat`, so the id counter cannot overflow in the model.
- Command variants other than `Print` and `Println` are collapsed into `Other`. The old interpreter ignores them, and the VM hands every command to `command::run`.
- The VM's own `value::Value` and `vm::variable::Variable` are not part of this model. They share the `Parser.Value` datatype, and a VM variable has an identifier and a value only.
- Sections are objects without aliasing between them: `LoadAll` proves them new and distinct, where Rust has separate values.
