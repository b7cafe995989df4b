/**
 * The parsed program representation that both executors consume.
 * The parser itself is not part of this model; these datatypes hold
 * only the fields the executors read.
 */
module Parser {

  /** A runtime value. `Symbol` names another variable and is resolved when read.
      A float carries the text its display form would produce. */
  datatype Value =
    | Integer(i: int)
    | FloatP(text: string)
    | Char(c: char)
    | Str(s: string)
    | Symbol(name: string)

  /** A parsed command. Only `Print` and `Println` are inspected by the old
      interpreter; every other variant of the parser is represented by `Other`. */
  datatype Command =
    | Print(msg: Value)
    | Println(msg: Value)
    | Other(kind: string)

  /** A declared parameter of a section: its name and expected kind. */
  datatype ExpectedParameter = ExpectedParameter(id: string, kind: string)

  /** A global constant declared in a unit. */
  datatype ConstDecl = ConstDecl(identifier: string, value: Value)

  /** A parsed section: name, command lines and parameter list. */
  datatype ParsedSection = ParsedSection(name: string, lines: seq<Command>, paramList: seq<ExpectedParameter>)

  /** A parsed file: its constants and sections, in source order. */
  datatype Unit = Unit(consts: seq<ConstDecl>, sects: seq<ParsedSection>)
}
