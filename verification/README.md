# PandaProto schema compiler and descriptors — a Dafny model

PandaProto is a small Protocol Buffers implementation in C++. This project
models four parts of it.

- **The compiler's `Message`** (`message.dfy`, module `CompilerMessage`). A
  message declaration keeps its fields twice: a name-keyed map and a list in
  declaration order. It also keeps a name-keyed map of nested enums. Adding a
  field or an enum whose name is already taken is refused and changes nothing.
  `Print` reorders the field list by tag. The class invariant `Valid()` says
  the list and the map hold the same fields. The model proves that this
  invariant survives every operation, that field names in the list are
  pairwise distinct, and that the sort returns a tag-ordered permutation.
- **The compiler's `EnumType`** (`enum_type.dfy`, module `CompilerEnumType`).
  An enum is an append-only list of value names. It counts as nested when it
  names an enclosing message. Its rendering is a header line, one indented
  line per value in insertion order, and a closing brace.
- **`TextPrinter`'s `$` substitution** (`text_printer.dfy`, module
  `TextPrinting`).
  - The k-th `$` of a template is replaced by the k-th match string. Once the
    matches run out, a `$` produces nothing.
  - The two-character sequence `\$` is copied as it stands. Every other
    character is copied unchanged.
  - The specification function `Expand` reads the template into tokens and
    fills the placeholders in order. The method `Substitute` scans the
    template left to right with a match counter. Its loop keeps the function
    `Scan`, the same scan stated step by step, and the lemma `ScanIsExpand`
    proves `Scan` equal to `Expand`.
  - General lemmas cover:
    - pass-through of placeholder-free text;
    - an empty, an exhausted or a surplus match list;
    - concatenation;
    - the n-th placeholder.
  - The six rounds of the unit test are proved as instances of those lemmas.
    Each test template is written as a right-nested concatenation of its
    literal runs.
- **The runtime descriptors** (`descriptor.dfy`, module `ProtoDescriptor`).
  These are immutable values:
  - field descriptors, with their full name and their kind predicates;
  - message, enum and service descriptors with full names;
  - the file descriptor, with its counters and lookups.

  Lookups return `Option` where the C++ returns a nullable pointer. Each
  lookup is specified by "found iff some element matches", and the element
  it returns is the first one that matches.

`optional.dfy` holds the `Option` datatype the other modules share.

## Model

| member | source | states |
|---|---|---|
| CompilerMessage.Message.constructor | src/Compiler/Message.cpp:11-13 | a new message has its name and package, no fields and no enums, and satisfies the list/map invariant |
| CompilerMessage.Message.AddField | src/Compiler/Message.cpp:17-27 | accepted iff the name is not yet in the field map; on success the field is in the map under its name and appended to the list; on refusal nothing changes; lookups of other names and the enum map are unaffected; the list/map invariant is kept |
| CompilerMessage.Message.AddEnum | src/Compiler/Message.cpp:29-38 | accepted iff the enum's name is not yet in the enum map; on success it is found under its name; on refusal nothing changes; the fields are untouched |
| CompilerMessage.Message.FindMessage | src/Compiler/Message.cpp:64-69 | finds a field iff some field in the list has that name, and what it returns is such a field |
| CompilerMessage.Message.FindEnumType | src/Compiler/Message.cpp:71-76 | returns non-null iff the name is in the enum map, and what it returns carries that name |
| CompilerMessage.Message.FieldsList | src/Compiler/Message.cpp:78-81 | as many fields as the map holds, each found by its own name, no two sharing a name |
| CompilerMessage.Message.EnumsMap | src/Compiler/Message.cpp:83-86 | every entry is keyed by the enum's own name and is what FindEnumType returns for it |
| CompilerMessage.Message.Print | src/Compiler/Message.cpp:45-48 | afterwards the field list is ordered by tag and is a permutation of the list before; maps unchanged; invariant kept |
| CompilerMessage.FieldNamesDistinct | src/Compiler/Message.cpp:17-27 | when the list and the map agree, the names in the list are pairwise distinct (the name check in AddField is what keeps them so) |
| CompilerMessage.ListMatchesMapPermutation | src/Compiler/Message.cpp:47 | any permutation of a list that agrees with the map still agrees with it, so reordering in Print keeps the invariant |
| CompilerMessage.InsertByTag | src/Compiler/Message.cpp:40-43 | inserting into a tag-ordered list gives a tag-ordered list holding exactly the old elements plus the new one |
| CompilerMessage.SortByTag | src/Compiler/Message.cpp:47 | the result is ordered by tag and is a permutation of the input |
| CompilerMessage.AddFieldsSharingTag | src/Compiler/Message.cpp:17-27 | two fields with different names but the same tag are both accepted: only names are checked |
| CompilerMessage.AddFieldsSharingName | src/Compiler/Message.cpp:17-27 | a second field with an existing name is refused; the first one stays findable and the list keeps one entry |
| CompilerMessage.AddEnumThenFind | src/Compiler/Message.cpp:29-38 | an enum is not found before it is added and is found after; adding an enum does not create a field |
| CompilerEnumType.EnumType.TopLevel | src/Compiler/EnumType.cpp:10-12 | a top-level enum has no enclosing message, is not nested and has no values |
| CompilerEnumType.EnumType.Nested | src/Compiler/EnumType.cpp:14-16 | an enum given a message name has no values and is nested iff that name is non-empty |
| CompilerEnumType.EnumType.AddEnumValue | src/Compiler/EnumType.cpp:18-20 | the value is appended; the count grows by one; earlier values keep their places; the rendered value block gains exactly the new value's line at its end |
| CompilerEnumType.EnumType.Indent | src/Compiler/EnumType.cpp:27 | two spaces iff the enum is nested, empty iff it is not |
| CompilerEnumType.EnumType.Render | src/Compiler/EnumType.cpp:26-34 | the text starts with `enum ` (indented by two spaces exactly when nested) and ends with a closing-brace line |
| CompilerEnumType.ValueLinesConcat | src/Compiler/EnumType.cpp:30-32 | rendering a concatenation of value lists renders each part in turn, so the lines follow the order of the values |
| CompilerEnumType.ValueLinesAppend | src/Compiler/EnumType.cpp:30-32 | rendering one more value adds exactly its line at the end |
| CompilerEnumType.EnumType.NumberEnums | src/Compiler/EnumType.cpp:22-24 | the number of values; `AddEnumValue` proves it grows by one per call, and `BuildEnum` that it equals the number of values added, duplicates included |
| CompilerEnumType.BuildEnum | src/Compiler/EnumType.cpp:18-24 | constructing an enum and adding values one by one leaves exactly those values, duplicates included, counted by NumberEnums, with their lines rendered in order |
| TextPrinting.Substitute | src/IO/TextPrinter_test.cpp:17 | the left-to-right scan with a match counter produces exactly the token-level expansion of the template |
| TextPrinting.ScanIsExpand | src/IO/TextPrinter_test.cpp:77-83 | the character scan (`\$` copied as a pair, `$` replaced by the next match, anything else copied) prints, from any position on, exactly what filling the rest of the template's tokens prints |
| TextPrinting.TextPrinter.constructor | src/IO/TextPrinter_test.cpp:16 | a new printer remembers its output file and has an empty buffer |
| TextPrinting.TextPrinter.Print | src/IO/TextPrinter_test.cpp:17 | the buffer grows by exactly the expansion of the template with the matches |
| TextPrinting.TextPrinter.Flush | src/IO/TextPrinter_test.cpp:18 | hands over everything printed since the last flush, in order, and leaves the buffer empty |
| TextPrinting.PrintVectorMatchRound | src/IO/TextPrinter_test.cpp:10-31 | one test round (construct, print, flush) yields exactly the expansion of the template |
| TextPrinting.SourceOfTokenize | src/IO/TextPrinter_test.cpp:77-83 | reading a template into tokens loses nothing: spelling the tokens out gives the template back, escapes included |
| TextPrinting.ExpandConcat | src/IO/TextPrinter_test.cpp:45-51 | the expansion of a concatenation is the expansion of the first part followed by the second part's expansion, continuing from the next unused match; placeholder counts add |
| TextPrinting.NthPlaceholder | src/IO/TextPrinter_test.cpp:45-51 | the placeholder that follows n placeholders is replaced by the n-th match |
| TextPrinting.PassThrough | src/IO/TextPrinter_test.cpp:77-83 | a template with no placeholder is copied unchanged whatever the matches |
| TextPrinting.PlainText | src/IO/TextPrinter_test.cpp:45-51 | text without `$` or backslash, newlines included, has no placeholder and expands to itself |
| TextPrinting.Singles | src/IO/TextPrinter_test.cpp:77-83 | a lone `$` is one placeholder and becomes the current match; `\$` is no placeholder and stays `\$` |
| TextPrinting.EmptyMatchesRemovePlaceholders | src/IO/TextPrinter_test.cpp:37-43 | with no matches the output spells out the template's tokens with the placeholders taken out (by `SourceOfTokenize`, exactly the template minus its unescaped `$`, every other character kept in order), so it is shorter by one character per placeholder |
| TextPrinting.ExhaustedMatchesDropPlaceholders | src/IO/TextPrinter_test.cpp:53-59 | once every match has been used, the rest expands as if there were no matches at all |
| TextPrinting.SurplusMatchesIgnored | src/IO/TextPrinter_test.cpp:61-67 | matches beyond the number of placeholders do not change the output |
| TextPrinting.HoleThen | src/IO/TextPrinter_test.cpp:61-67 | a leading placeholder takes the current match and the rest continues with the next one |
| TextPrinting.TextThenHole | src/IO/TextPrinter_test.cpp:45-51 | plain text then a placeholder: the text, the current match, then the rest from the next match |
| TextPrinting.TextThenEscapedDollar | src/IO/TextPrinter_test.cpp:77-83 | plain text then `\$`: both copied, and no match is consumed |
| TextPrinting.FourPlaceholders | src/IO/TextPrinter_test.cpp:37-59 | for any plain text runs around four placeholders, the output interleaves the runs with matches 0 to 3 (empty when missing) |
| TextPrinting.LeadingPlaceholder | src/IO/TextPrinter_test.cpp:61-67 | a template that starts with a placeholder takes match 0 first, then match 1 for the next |
| TextPrinting.TrailingPlaceholder | src/IO/TextPrinter_test.cpp:69-75 | a template that ends with a placeholder ends with the third match |
| TextPrinting.AdjacentThenEscaped | src/IO/TextPrinter_test.cpp:77-83 | two adjacent placeholders take two consecutive matches; a later `\$` is copied and consumes none |
| TextPrinting.Round0NoMatches | src/IO/TextPrinter_test.cpp:37-43 | the first round's template with no matches gives the test's expected text |
| TextPrinting.Round1ExactMatches | src/IO/TextPrinter_test.cpp:45-51 | the second round, four placeholders and four matches, gives the expected text |
| TextPrinting.Round2TooFewMatches | src/IO/TextPrinter_test.cpp:53-59 | the third round, three matches for four placeholders, gives the expected text |
| TextPrinting.Round3LeadingPlaceholder | src/IO/TextPrinter_test.cpp:61-67 | the fourth round, leading placeholder and surplus matches, gives the expected text |
| TextPrinting.Round4TrailingPlaceholder | src/IO/TextPrinter_test.cpp:69-75 | the fifth round, trailing placeholder, gives the expected text |
| TextPrinting.Round5AdjacentAndEscaped | src/IO/TextPrinter_test.cpp:77-83 | the sixth round, adjacent placeholders and an escaped dollar, gives the expected text |
| ProtoDescriptor.ToUint32 | src/Proto/Descriptor.h:148-152 | a non-negative signed 32-bit tag keeps its value; a negative one wraps to value + 2^32 |
| ProtoDescriptor.NewFieldDescriptor | src/Proto/Descriptor.h:148-167 | every accessor returns the constructor's argument; the tag is the argument converted to unsigned 32 bits |
| ProtoDescriptor.FieldFullName | src/Proto/Descriptor.h:155-160 | the full name is the container message's name, a dot, then the field name |
| ProtoDescriptor.FieldFullNameIdentifies | src/Proto/Descriptor.h:155-160 | for dot-free field names, two fields have the same full name iff they share container and name |
| ProtoDescriptor.CombinedKinds | src/Proto/Descriptor.h:176-181 | at most one of the six label-and-kind predicates holds, and exactly one unless the type is a service |
| ProtoDescriptor.FieldClassification | src/Proto/Descriptor.h:172-194 | a well-formed field is primitive exactly when it refers to no type descriptor; it is exactly one of primitive, enum-typed and message-typed; a primitive field is numeric or string; it is exactly one of singular or repeated and exactly one of the six combinations |
| ProtoDescriptor.HasDefaultValue | src/Proto/Descriptor.h:170 | whether the field has a default; `NewFieldDescriptor` proves a field reports one exactly when it was built with a non-empty default string |
| ProtoDescriptor.IsPrimitiveType | src/Proto/Descriptor.h:172 | numeric and string fields; `FieldClassification` proves these are exactly the fields without a type descriptor |
| ProtoDescriptor.IsMessageType | src/Proto/Descriptor.h:173 | message-typed fields; `FieldClassification` proves they are never primitive |
| ProtoDescriptor.IsSingularType | src/Proto/Descriptor.h:174 | singular fields; `FieldClassification` proves every field is exactly one of singular and repeated |
| ProtoDescriptor.IsRepeatedType | src/Proto/Descriptor.h:175 | repeated fields; the complement of the singular ones, by `FieldClassification` |
| ProtoDescriptor.IsSingularNumericType | src/Proto/Descriptor.h:176 | singular numeric or enum fields; one of the six combinations `CombinedKinds` proves mutually exclusive |
| ProtoDescriptor.IsSingularStringType | src/Proto/Descriptor.h:177 | singular string fields; one of the six exclusive combinations |
| ProtoDescriptor.IsSingularMessageType | src/Proto/Descriptor.h:178 | singular message fields; one of the six exclusive combinations |
| ProtoDescriptor.IsRepeatedNumericType | src/Proto/Descriptor.h:179 | repeated numeric or enum fields; one of the six exclusive combinations |
| ProtoDescriptor.IsRepeatedStringType | src/Proto/Descriptor.h:180 | repeated string fields; one of the six exclusive combinations |
| ProtoDescriptor.IsRepeatedMessageType | src/Proto/Descriptor.h:181 | repeated message fields; one of the six exclusive combinations, which together cover every non-service field |
| ProtoDescriptor.TypeFullName | src/Proto/Descriptor.h:64-66 | the full name ends with the short name and is the package, a dot and the name when the package is non-empty, else just the name |
| ProtoDescriptor.TypeFullNameIdentifies | src/Proto/Descriptor.h:64-66 | within one package, full names are equal iff short names are equal |
| ProtoDescriptor.Kind | src/Proto/Descriptor.h:84-137 | a message, enum and service descriptor report their own kind, and only theirs |
| ProtoDescriptor.FindFieldByTag | src/Proto/Descriptor.h:89 | a field is found iff some field has the tag, and the one returned has it |
| ProtoDescriptor.FindFieldByName | src/Proto/Descriptor.h:90 | a field is found iff some field has the name, and the one returned has it |
| ProtoDescriptor.FindFieldOfMember | src/Proto/Descriptor.h:89-90 | in a message with distinct tags and names, every field is found by its own tag and by its own name |
| ProtoDescriptor.FindNestedEnumTypeByName | src/Proto/Descriptor.h:93 | a nested enum is found iff one has the name, and the one returned has it |
| ProtoDescriptor.NewEnumDescriptor | src/Proto/Descriptor.h:108-118 | a new enum descriptor has the given header and nested flag and contains no value |
| ProtoDescriptor.ContainsEnum | src/Proto/Descriptor.h:116 | true iff some value has the name |
| ProtoDescriptor.EnumValueAsString | src/Proto/Descriptor.h:120 | the empty string when no value has the number, else the name of a value with that number |
| ProtoDescriptor.EnumValueRoundTrip | src/Proto/Descriptor.h:116-120 | with distinct numbers, a value's number maps back to its name, and that name is contained |
| ProtoDescriptor.CountEnums | src/Proto/Descriptor.h:32-33 | the count is at most the number of enums and zero iff none has the requested nested flag |
| ProtoDescriptor.NumFields | src/Proto/Descriptor.h:85 | the number of fields, zero exactly when no tag finds a field |
| ProtoDescriptor.NumNestedEnums | src/Proto/Descriptor.h:86 | the number of nested enums, zero exactly when no name finds one |
| ProtoDescriptor.NumberEnums | src/Proto/Descriptor.h:115 | the number of values, zero exactly when the enum contains no name |
| ProtoDescriptor.IsNested | src/Proto/Descriptor.h:118 | an enum is nested exactly when the file's nested-enum count includes it, and top-level exactly when the top-level count does |
| ProtoDescriptor.FileNumMessages | src/Proto/Descriptor.h:31 | the number of messages, zero exactly when no full name finds one |
| ProtoDescriptor.FileNumEnums | src/Proto/Descriptor.h:32 | the number of top-level enums; with the nested ones it adds up to all enums of the file (by `EnumCountsPartition`) |
| ProtoDescriptor.FileNumNestedEnums | src/Proto/Descriptor.h:33 | the number of nested enums, zero exactly when every enum of the file is top-level |
| ProtoDescriptor.FileNumServices | src/Proto/Descriptor.h:34 | the number of services, zero exactly when no full name finds one |
| ProtoDescriptor.EnumCountsPartition | src/Proto/Descriptor.h:32-33 | top-level and nested enum counts add up to all enums of the file |
| ProtoDescriptor.FindEnumTypeByName | src/Proto/Descriptor.h:36-37 | found iff some enum of the file has that full name, and the one returned has it |
| ProtoDescriptor.FindMessageTypeByName | src/Proto/Descriptor.h:39-40 | found iff some message of the file has that full name, and the one returned has it |
| ProtoDescriptor.FindServiceTypeByName | src/Proto/Descriptor.h:42-43 | found iff some service of the file has that full name, and the one returned has it |

## Left out

- CompilerMessage.Message.Print: the text it writes to standard output is not modelled. The field lines use `MessageField`'s modifier and type strings, and `MessageField` is not part of this model. The contract states only the reordering.
- CompilerMessage.Message.Print: `std::sort` is not stable, so the contract says the list ends up tag-ordered and a permutation of the old one. It does not fix the order of fields that share a tag. `SortByTag` is one sort that meets that contract.
- CompilerMessage.Message.AddField and AddEnum: the error message printed to standard error is left out.
- Protocol Buffers expects field tags to be unique within a message, but `Message::AddField` (src/Compiler/Message.cpp:18) checks names only; the model follows the code (`AddFieldsSharingTag`).
- CompilerEnumType.EnumType.Render: models the text that `Print` writes, not the write to standard output.
- CompilerEnumType.EnumType.NumberEnums: the C++ `int` result is modelled as the unbounded length of the value list.
- TextPrinter.cpp and TextPrinter.h are not part of this model. The substitution rule comes from the unit test. A `\` followed by `$` is copied as both characters and is not a placeholder. Any other backslash is an ordinary character.
- TextPrinting.TextPrinter.Flush: writing the buffer to the output file is modelled as returning the buffered text. The file system is left out.
- TextPrinting.PrintVectorMatchRound: the test compares only a prefix of the file (`strncmp` over the expected length) after reading it back. The model states equality of the whole output, which is stronger.
- The map-match test (`test_PrintMapMatch`) and the file reading and deletion in the test harness are left out.
- Descriptor.cpp and Common.h are not part of this model. The following are assumptions:
  - the numeric field types are collapsed into one kind;
  - enum fields count as numeric, for the combined predicates, but not as primitive: primitive fields are the ones without a type descriptor (src/Proto/Descriptor.h:192-194);
  - a type's full name is its package, a dot and its name, and the bare name when the package is empty;
  - a field's full name is its container message's full name, a dot and the field name, following the "Foo.Bar.hostname" example of src/Proto/Descriptor.h:155-159;
  - references to other descriptors are held by name;
  - file-level lookups match the full name, while nested enums match the short name;
  - `EnumValueAsString` returns the empty string on a miss;
  - `has_default_value` means a non-empty default;
  - `num_enums` and `num_nested_enums` count by the nested flag.
- ProtoDescriptor: `FindSeriveTypeByName` (so spelled in the header) is modelled as `FindServiceTypeByName`.
- ProtoDescriptor: `field_offset`, the virtual `print()`, ownership through `unique_ptr`, friend classes and destructors are left out. They carry no behaviour the header states.
- src/Network/Socket.h and samples/main.cpp (wire encoding, reflection and the message factory) are outside the modelled core.
