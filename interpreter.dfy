/**
 * The old tree-walking interpreter: a flat store of variables, the loaded
 * sections, and the commands that print values. Standard output is the
 * ghost string `output` of the environment.
 */
module Interpreter {
  import opened Common
  import opened Parser
  import Text

  /** A variable address is a signed 16-bit integer (`i16`). */
  type Address = a: int | -0x8000 <= a < 0x8000

  /** `n as i16` for a store length: the low 16 bits read as two's complement. */
  function ToAddress(n: nat): (a: Address)
    ensures n < 0x8000 ==> a == n
    ensures (n - a) % 0x1_0000 == 0
  {
    var low := n % 0x1_0000;
    if low < 0x8000 then low else low - 0x1_0000
  }

  /** A named binding in the store. */
  datatype Variable = Variable(id: string, value: Value, address: Address, constant: bool)

  /** `Variable::new`: the placeholder a failed lookup returns. */
  function NewVariable(): (v: Variable)
    ensures v.id == [] && v.value == Symbol([]) && v.address == -1 && v.constant
  {
    Variable("", Symbol(""), -1, true)
  }

  /** `Variable::from`: a variable whose address is still unassigned. */
  function VariableFrom(vid: string, val: Value, isConst: bool): (v: Variable)
    ensures v.id == vid && v.value == val && v.constant == isConst && v.address == -1
  {
    Variable(vid, val, -1, isConst)
  }

  /** Options of the environment. */
  datatype EnvironmentOptions = EnvironmentOptions(defaultSection: string, verbose: bool)

  /** `EnvironmentOptions::new`: run section `SHOW`, not verbose. */
  function NewOptions(): (o: EnvironmentOptions)
    ensures o.defaultSection == "SHOW" && !o.verbose
  {
    EnvironmentOptions("SHOW", false)
  }

  /** The failures that stop the interpreter (a panic in the source). */
  datatype Fault =
    | SectionNotFound(name: string)
    | UserUnset

  /** Position of the first variable called `name`. */
  function FindVar(vars: seq<Variable>, name: string): (r: Option<nat>)
    ensures r.Some? ==> r.value < |vars| && vars[r.value].id == name
    ensures r.Some? ==> forall j :: 0 <= j < r.value ==> vars[j].id != name
    ensures r.None? <==> forall j :: 0 <= j < |vars| ==> vars[j].id != name
  {
    if vars == [] then None
    else if vars[0].id == name then Some(0)
    else match FindVar(vars[1..], name)
      case Some(i) => Some(i + 1)
      case None => None
  }

  /** What a lookup of `name` yields: the first match, or the placeholder. */
  function Lookup(vars: seq<Variable>, name: string): Variable
  {
    match FindVar(vars, name)
    case Some(i) => vars[i]
    case None => NewVariable()
  }

  /** Display text of a value that is not a symbol. */
  function LiteralText(v: Value): Option<string>
  {
    match v
    case Integer(x) => Some(Text.IntText(x))
    case FloatP(t) => Some(t)
    case Char(c) => Some([c])
    case Str(s) => Some(s)
    case Symbol(_) => None
  }

  /** Display text of a message: a symbol is resolved one level through the store. */
  function Rendered(message: Value, vars: seq<Variable>): Option<string>
  {
    match message
    case Symbol(name) => LiteralText(Lookup(vars, name).value)
    case _ => LiteralText(message)
  }

  /** What `Print` writes. */
  function PrintText(message: Value, vars: seq<Variable>): string
  {
    match Rendered(message, vars)
    case Some(t) => t
    case None => ""
  }

  /** What `Println` writes. */
  function PrintlnText(message: Value, vars: seq<Variable>): string
  {
    match Rendered(message, vars)
    case Some(t) => t + "\n"
    case None => ""
  }

  /** What one command writes. */
  function CommandText(cmd: Command, vars: seq<Variable>): string
  {
    match cmd
    case Print(m) => PrintText(m, vars)
    case Println(m) => PrintlnText(m, vars)
    case Other(_) => ""
  }

  /** What a sequence of commands writes, in order. */
  function LinesText(lines: seq<Command>, vars: seq<Variable>): string
  {
    if lines == [] then "" else CommandText(lines[0], vars) + LinesText(lines[1..], vars)
  }

  /** Position of the first section called `name`. */
  function FindSection(sections: seq<ParsedSection>, name: string): (r: Option<nat>)
    ensures r.Some? ==> r.value < |sections| && sections[r.value].name == name
    ensures r.Some? ==> forall j :: 0 <= j < r.value ==> sections[j].name != name
    ensures r.None? <==> forall j :: 0 <= j < |sections| ==> sections[j].name != name
  {
    if sections == [] then None
    else if sections[0].name == name then Some(0)
    else match FindSection(sections[1..], name)
      case Some(i) => Some(i + 1)
      case None => None
  }

  /** The store entries that loading `consts` appends to a store of length `base`. */
  function ConstVariables(consts: seq<ConstDecl>, base: nat): seq<Variable>
  {
    seq(|consts|, i requires 0 <= i < |consts| =>
      Variable(consts[i].identifier, consts[i].value, ToAddress(base + i), true))
  }

  /** The two bootstrap constants appended to a store of length `base`. */
  function BootVariables(user: string, base: nat): seq<Variable>
  {
    [Variable("CUMPADE", Str(user), ToAddress(base), true),
     Variable("UM", Integer(1), ToAddress(base + 1), true)]
  }

  /** The environment the scripts run in. */
  class Environment {
    var variables: seq<Variable>
    var sections: seq<ParsedSection>
    var options: EnvironmentOptions
    /** Everything written to standard output so far. */
    ghost var output: string

    constructor (opts: EnvironmentOptions)
      ensures variables == [] && sections == [] && options == opts && output == []
    {
      variables := [];
      sections := [];
      options := opts;
      output := [];
    }

    /** Appends `v` with its address set to its position, and returns that address. */
    method DeclareVar(v: Variable) returns (addr: Address)
      modifies this`variables
      ensures addr == ToAddress(|old(variables)|)
      ensures variables == old(variables) + [v.(address := addr)]
    {
      addr := ToAddress(|variables|);
      var vcpy := v.(address := addr);
      variables := variables + [vcpy];
    }

    /** Loads a unit without running it: constants first, then sections. */
    method Interpret(file: Unit)
      modifies this`variables, this`sections
      ensures variables == old(variables) + ConstVariables(file.consts, |old(variables)|)
      ensures sections == old(sections) + file.sects
    {
      ghost var base := |variables|;
      for i := 0 to |file.consts|
        invariant variables == old(variables) + ConstVariables(file.consts[..i], base)
        invariant sections == old(sections)
      {
        var constVar := file.consts[i];
        var v := Variable(constVar.identifier, constVar.value, 0, true);
        var _ := DeclareVar(v);
        assert ConstVariables(file.consts[..i + 1], base) == ConstVariables(file.consts[..i], base) + [v.(address := ToAddress(base + i))];
      }
      assert file.consts[..|file.consts|] == file.consts;
      for i := 0 to |file.sects|
        invariant variables == old(variables) + ConstVariables(file.consts, base)
        invariant sections == old(sections) + file.sects[..i]
      {
        sections := sections + [file.sects[i]];
        assert file.sects[..i + 1] == file.sects[..i] + [file.sects[i]];
      }
      assert file.sects[..|file.sects|] == file.sects;
    }

    /** The first variable called `name`, or the placeholder when there is none. */
    method GetVar(name: string) returns (v: Variable)
      ensures v == Lookup(variables, name)
    {
      if |variables| <= 0 {
        v := NewVariable();
      } else {
        var ret := NewVariable();
        var i := 0;
        while i < |variables|
          invariant 0 <= i <= |variables|
          invariant forall j :: 0 <= j < i ==> variables[j].id != name
        {
          if variables[i].id == name {
            ret := variables[i];
            break;
          }
          i := i + 1;
        }
        v := ret;
      }
    }

    /** `Print`: writes the display text of the message, no line terminator. */
    method CommandPrint(message: Value)
      modifies this`output
      ensures output == old(output) + PrintText(message, variables)
    {
      match message
      case Integer(x) => output := output + Text.IntText(x);
      case FloatP(x) => output := output + x;
      case Char(x) => output := output + [x];
      case Str(x) => output := output + x;
      case Symbol(name) =>
        var found := GetVar(name);
        match found.value
        case Integer(x) => output := output + Text.IntText(x);
        case FloatP(x) => output := output + x;
        case Char(x) => output := output + [x];
        case Str(x) => output := output + x;
        case Symbol(_) =>
    }

    /** `Println`: writes the display text of the message and a line terminator. */
    method CommandPrintln(message: Value)
      modifies this`output
      ensures output == old(output) + PrintlnText(message, variables)
    {
      match message
      case Integer(x) => output := output + Text.IntText(x) + "\n";
      case FloatP(x) => output := output + x + "\n";
      case Char(x) => output := output + [x] + "\n";
      case Str(x) => output := output + x + "\n";
      case Symbol(name) =>
        var found := GetVar(name);
        match found.value
        case Integer(x) => output := output + Text.IntText(x) + "\n";
        case FloatP(x) => output := output + x + "\n";
        case Char(x) => output := output + [x] + "\n";
        case Str(x) => output := output + x + "\n";
        case Symbol(_) =>
    }

    /** Runs one command: only the two print commands have an effect. */
    method ExecuteCommand(cmd: Command)
      modifies this`output
      ensures output == old(output) + CommandText(cmd, variables)
    {
      match cmd
      case Print(msg) => CommandPrint(msg);
      case Println(msg) => CommandPrintln(msg);
      case Other(_) =>
    }

    /** Runs the lines of the first section called `sectName`; fails if there is none. */
    method ExecuteSection(sectName: string) returns (r: Outcome<Fault>)
      modifies this`output
      ensures FindSection(sections, sectName).None? ==>
                r == Fail(SectionNotFound(sectName)) && output == old(output)
      ensures FindSection(sections, sectName).Some? ==>
                r == Pass &&
                output == old(output) + LinesText(sections[FindSection(sections, sectName).value].lines, variables)
    {
      var section := ParsedSection("", [], []);
      var found := false;
      ghost var pos := FindSection(sections, sectName);
      var k := 0;
      while k < |sections|
        invariant 0 <= k <= |sections|
        invariant forall j :: 0 <= j < k ==> sections[j].name != sectName
      {
        if sections[k].name == sectName {
          section := sections[k];
          found := true;
          break;
        }
        k := k + 1;
      }
      if !found {
        assert pos.None?;
        r := Fail(SectionNotFound(sectName));
      } else {
        assert pos == Some(k) && section == sections[k];
        ExecuteLines(section.lines);
        r := Pass;
      }
    }

    /** Runs `lines` in order: what they write is appended to the output. */
    method ExecuteLines(lines: seq<Command>)
      modifies this`output
      ensures output == old(output) + LinesText(lines, variables)
    {
      ghost var vars := variables;
      for i := 0 to |lines|
        invariant output == old(output) + LinesText(lines[..i], vars)
      {
        ghost var before := output;
        ExecuteCommand(lines[i]);
        assert output == before + CommandText(lines[i], vars);
        LinesTextSnoc(old(output), lines, i, vars);
      }
      assert lines[..|lines|] == lines;
    }

    /** Declares the bootstrap constants `CUMPADE` (the user name) and `UM` (one), in that order.
        `user` is the `USER` environment variable; `None` when it is not set. */
    method InitVariables(user: Option<string>) returns (r: Outcome<Fault>)
      modifies this`variables
      ensures user.None? ==> r == Fail(UserUnset) && variables == old(variables)
      ensures user.Some? ==>
                r == Pass && variables == old(variables) + BootVariables(user.value, |old(variables)|)
    {
      if user.None? {
        return Fail(UserUnset);
      }
      var varNames := ["CUMPADE", "UM"];
      var varValues := [Str(user.value), Integer(1)];
      ghost var base := |variables|;
      for i := 0 to |varNames|
        invariant variables == old(variables) + BootVariables(user.value, base)[..i]
      {
        var v := VariableFrom(varNames[i], varValues[i], true);
        var _ := DeclareVar(v);
        assert BootVariables(user.value, base)[..i + 1] == BootVariables(user.value, base)[..i] + [v.(address := ToAddress(base + i))];
      }
      assert BootVariables(user.value, base)[..2] == BootVariables(user.value, base);
      r := Pass;
    }

    /** Installs the bootstrap constants, then runs the default section. */
    method StartProgram(user: Option<string>) returns (r: Outcome<Fault>)
      modifies this`variables, this`output
      ensures user.None? ==> r == Fail(UserUnset) && variables == old(variables) && output == old(output)
      ensures user.Some? ==> variables == old(variables) + BootVariables(user.value, |old(variables)|)
      ensures user.Some? && FindSection(sections, options.defaultSection).None? ==>
                r == Fail(SectionNotFound(options.defaultSection)) && output == old(output)
      ensures user.Some? && FindSection(sections, options.defaultSection).Some? ==>
                r == Pass &&
                output == old(output) +
                  LinesText(sections[FindSection(sections, options.defaultSection).value].lines, variables)
    {
      var name := options.defaultSection;
      r := InitVariables(user);
      if r.Pass? {
        r := ExecuteSection(name);
      }
    }
  }

  // Properties of the store.

  /** Address assignment is periodic with period 2^16, and lengths from 2^15 up to 2^16
      wrap to negative addresses. */
  lemma AddressWraps(n: nat)
    ensures ToAddress(n + 0x1_0000) == ToAddress(n)
    ensures 0x8000 <= n < 0x1_0000 ==> ToAddress(n) == n - 0x1_0000
  {
  }

  /** Loaded constants keep their identifier and value, are constant, and take
      consecutive addresses starting at the old store length. */
  lemma ConstVariablesSequential(consts: seq<ConstDecl>, base: nat)
    requires base + |consts| <= 0x8000
    ensures |ConstVariables(consts, base)| == |consts|
    ensures forall i :: 0 <= i < |consts| ==>
              var v := ConstVariables(consts, base)[i];
              v.id == consts[i].identifier && v.value == consts[i].value &&
              v.constant && v.address == base + i
  {
  }

  /** No two loaded constants share an address while the store has at most 2^16 entries. */
  lemma ConstAddressesDistinct(consts: seq<ConstDecl>, base: nat, i: nat, j: nat)
    requires base + |consts| <= 0x1_0000
    requires i < j < |consts|
    ensures ConstVariables(consts, base)[i].address != ConstVariables(consts, base)[j].address
  {
  }

  /** A search in a store that was extended finds the earlier entry first. */
  lemma {:induction false} FindVarAppend(a: seq<Variable>, b: seq<Variable>, name: string)
    ensures FindVar(a + b, name) ==
              match FindVar(a, name)
              case Some(i) => Some(i)
              case None => match FindVar(b, name) case Some(j) => Some(|a| + j) case None => None
  {
    if a == [] {
      assert a + b == b;
    } else if a[0].id != name {
      assert (a + b)[0] == a[0];
      assert (a + b)[1..] == a[1..] + b;
      FindVarAppend(a[1..], b, name);
    }
  }

  /** A lookup in a store that was extended finds the earlier entry first. */
  lemma LookupAppend(a: seq<Variable>, b: seq<Variable>, name: string)
    ensures FindVar(a, name).Some? ==> Lookup(a + b, name) == Lookup(a, name)
    ensures FindVar(a, name).None? ==> Lookup(a + b, name) == Lookup(b, name)
  {
    FindVarAppend(a, b, name);
    if FindVar(a, name).None? && FindVar(b, name).Some? {
      assert (a + b)[|a| + FindVar(b, name).value] == b[FindVar(b, name).value];
    }
  }

  /** After the bootstrap, `UM` resolves to one unless the program declared its own `UM`,
      which then shadows it. */
  lemma BootUmIsOne(vars: seq<Variable>, user: string)
    ensures FindVar(vars, "UM").None? ==>
              Lookup(vars + BootVariables(user, |vars|), "UM").value == Integer(1) &&
              PrintText(Symbol("UM"), vars + BootVariables(user, |vars|)) == "1"
    ensures FindVar(vars, "UM").Some? ==>
              Lookup(vars + BootVariables(user, |vars|), "UM") == Lookup(vars, "UM")
  {
    var boot := BootVariables(user, |vars|);
    assert FindVar(boot, "UM") == Some(1) by {
      assert |boot[0].id| != |"UM"|;
    }
    LookupAppend(vars, boot, "UM");
    if FindVar(vars, "UM").None? {
      var all := vars + boot;
      assert Lookup(all, "UM") == boot[1];
      assert PrintText(Symbol("UM"), all) == "1" by {
        assert Text.NatText(1) == "1";
      }
    }
  }

  /** After the bootstrap, `CUMPADE` prints the user name unless the program declared its own. */
  lemma BootCumpadeIsUser(vars: seq<Variable>, user: string)
    requires FindVar(vars, "CUMPADE").None?
    ensures PrintText(Symbol("CUMPADE"), vars + BootVariables(user, |vars|)) == user
  {
    var boot := BootVariables(user, |vars|);
    assert FindVar(boot, "CUMPADE") == Some(0);
    LookupAppend(vars, boot, "CUMPADE");
  }

  // Properties of printing.

  /** A literal prints exactly its own text. */
  lemma PrintLiteral(vars: seq<Variable>, x: int, f: string, c: char, s: string)
    ensures PrintText(Integer(x), vars) == Text.IntText(x)
    ensures PrintText(FloatP(f), vars) == f
    ensures PrintText(Char(c), vars) == [c]
    ensures PrintText(Str(s), vars) == s
  {
  }

  /** A symbol prints the text of the value it names; a name that is unbound, or
      bound to another symbol, prints nothing. */
  lemma PrintSymbol(vars: seq<Variable>, name: string)
    ensures FindVar(vars, name).Some? && !vars[FindVar(vars, name).value].value.Symbol? ==>
              PrintText(Symbol(name), vars) == PrintText(vars[FindVar(vars, name).value].value, vars)
    ensures FindVar(vars, name).None? ==> PrintText(Symbol(name), vars) == ""
    ensures FindVar(vars, name).Some? && vars[FindVar(vars, name).value].value.Symbol? ==>
              PrintText(Symbol(name), vars) == ""
  {
  }

  /** `Println` writes what `Print` writes followed by one newline, and writes nothing at all
      when the message does not resolve to something displayable. */
  lemma PrintlnIsPrintThenNewline(message: Value, vars: seq<Variable>)
    ensures Rendered(message, vars).Some? ==> PrintlnText(message, vars) == PrintText(message, vars) + "\n"
    ensures Rendered(message, vars).None? ==> PrintlnText(message, vars) == "" && PrintText(message, vars) == ""
    ensures PrintlnText(message, vars) == "" <==> Rendered(message, vars).None?
  {
  }

  /** The output of a concatenation of lines is the concatenation of their outputs. */
  lemma {:induction false} LinesTextAppend(a: seq<Command>, b: seq<Command>, vars: seq<Variable>)
    ensures LinesText(a + b, vars) == LinesText(a, vars) + LinesText(b, vars)
  {
    if a == [] {
      assert a + b == b;
    } else {
      assert (a + b)[1..] == a[1..] + b;
      LinesTextAppend(a[1..], b, vars);
    }
  }

  /** Output written before `lines` and then through line `i` is the output through
      line `i - 1` followed by what line `i` writes. */
  lemma LinesTextSnoc(written: string, lines: seq<Command>, i: nat, vars: seq<Variable>)
    requires i < |lines|
    ensures written + LinesText(lines[..i + 1], vars) == (written + LinesText(lines[..i], vars)) + CommandText(lines[i], vars)
  {
    var done, next := LinesText(lines[..i], vars), CommandText(lines[i], vars);
    assert LinesText(lines[..i + 1], vars) == done + next by {
      assert lines[..i + 1] == lines[..i] + [lines[i]];
      LinesTextAppend(lines[..i], [lines[i]], vars);
      assert [lines[i]][1..] == [];
    }
    assert written + (done + next) == (written + done) + next;
  }

  /** A command other than the two prints writes nothing. */
  lemma OtherCommandSilent(kind: string, vars: seq<Variable>)
    ensures CommandText(Other(kind), vars) == ""
  {
  }

  /** `Print 5` followed by `Println "x"` writes exactly `5x` and one newline. */
  lemma PrintThenPrintlnExample(vars: seq<Variable>)
    ensures LinesText([Print(Integer(5)), Println(Str("x"))], vars) == "5x\n"
  {
    var lines := [Print(Integer(5)), Println(Str("x"))];
    assert Text.NatText(5) == "5";
    assert CommandText(lines[0], vars) == "5";
    assert lines[1..] == [Println(Str("x"))];
    assert LinesText(lines[1..], vars) == "x\n" + LinesText([], vars);
  }
}
