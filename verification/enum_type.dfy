/** The schema compiler's `enum` declaration: an append-only list of value
    names, either at the top level of a schema file or enclosed in a message. */
module CompilerEnumType {

  /** One rendered value line: the enum's indent, two more spaces, the value name and a comma. */
  function ValueLine(indent: string, value: string): string {
    indent + "  " + value + ",\n"
  }

  /** The value block of a rendered enum: one line per value, first value first. */
  function ValueLines(indent: string, values: seq<string>): string {
    if values == [] then "" else ValueLine(indent, values[0]) + ValueLines(indent, values[1..])
  }

  /** Rendering a concatenation of value lists renders each part in turn:
      the rendered lines keep the order of the values. */
  lemma {:induction false} ValueLinesConcat(indent: string, a: seq<string>, b: seq<string>)
    ensures ValueLines(indent, a + b) == ValueLines(indent, a) + ValueLines(indent, b)
  {
    if a == [] {
      assert a + b == b;
    } else {
      assert (a + b)[0] == a[0];
      assert (a + b)[1..] == a[1..] + b;
      ValueLinesConcat(indent, a[1..], b);
    }
  }

  /** Appending one value adds exactly its line at the end of the value block. */
  lemma ValueLinesAppend(indent: string, values: seq<string>, v: string)
    ensures ValueLines(indent, values + [v]) == ValueLines(indent, values) + ValueLine(indent, v)
  {
    ValueLinesConcat(indent, values, [v]);
    assert [v][1..] == [];
  }

  class EnumType {
    const name: string
    const package: string
    /** Name of the enclosing message; empty for a top-level enum. */
    const message: string
    /** The value names in the order they were added. */
    var values: seq<string>

    /** A top-level enum: no enclosing message and no values yet. */
    constructor TopLevel(name: string, package: string)
      ensures this.name == name && this.package == package && message == ""
      ensures values == [] && NumberEnums() == 0 && !IsNested()
    {
      this.name := name;
      this.package := package;
      this.message := "";
      values := [];
    }

    /** An enum declared with an enclosing message name, and no values yet. */
    constructor Nested(name: string, package: string, message: string)
      ensures this.name == name && this.package == package && this.message == message
      ensures values == [] && NumberEnums() == 0
      ensures IsNested() <==> message != ""
    {
      this.name := name;
      this.package := package;
      this.message := message;
      values := [];
    }

    /** The enum counts as nested when its enclosing message name is non-empty. */
    predicate IsNested() {
      |message| > 0
    }

    /** Appends a value name; there is no check for a name already present. */
    method AddEnumValue(v: string)
      modifies this
      ensures values == old(values) + [v]
      ensures NumberEnums() == old(NumberEnums()) + 1
      ensures forall i :: 0 <= i < old(|values|) ==> values[i] == old(values[i])
      ensures ValueBlock() == old(ValueBlock()) + ValueLine(Indent(), v)
    {
      ValueLinesAppend(Indent(), values, v);
      values := values + [v];
    }

    function NumberEnums(): int
      reads this
    {
      |values|
    }

    /** Two spaces for an enum inside a message, nothing for a top-level one. */
    function Indent(): (s: string)
      ensures s == "  " <==> IsNested()
      ensures s == "" <==> !IsNested()
    {
      if |message| > 0 then "  " else ""
    }

    /** The rendered lines of the values, without the header and footer. */
    function ValueBlock(): string
      reads this
    {
      ValueLines(Indent(), values)
    }

    /** The text `Print` writes: a header line, one line per value, a closing brace. */
    function Render(): (s: string)
      reads this
      ensures |s| >= 10 && (s[0] == ' ' <==> IsNested())
      ensures IsNested() ==> s[..7] == "  enum "
      ensures !IsNested() ==> s[..5] == "enum "
      ensures s[|s| - 2..] == "}\n"
    {
      Indent() + "enum " + name + " {\n" + ValueBlock() + Indent() + "}\n"
    }
  }

  /** A schema parser's sequence of calls: construct the enum, then add each value in turn.
      Afterwards the enum holds exactly those values, duplicates included, and counts them. */
  method BuildEnum(name: string, package: string, message: string, vs: seq<string>) returns (e: EnumType)
    ensures e.values == vs && e.NumberEnums() == |vs|
    ensures e.name == name && (e.IsNested() <==> message != "")
    ensures e.ValueBlock() == ValueLines(e.Indent(), vs)
  {
    if message == "" {
      e := new EnumType.TopLevel(name, package);
    } else {
      e := new EnumType.Nested(name, package, message);
    }
    var i := 0;
    while i < |vs|
      invariant 0 <= i <= |vs|
      invariant e.values == vs[..i]
      invariant e.name == name && e.message == message
    {
      e.AddEnumValue(vs[i]);
      assert vs[..i + 1] == vs[..i] + [vs[i]];
      i := i + 1;
    }
    assert vs[..i] == vs;
  }
}
