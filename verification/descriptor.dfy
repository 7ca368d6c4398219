/** The read-only schema metadata: file, message, enum, service and field
    descriptors. Descriptors are built once and only queried afterwards, so
    they are values here; a reference from one descriptor to another (a
    field's container message, the type a field refers to, a type's file)
    is held as that descriptor's name. */
module ProtoDescriptor {
  import opened Optional

  newtype uint32 = x: int | 0 <= x < 0x1_0000_0000
  newtype int32 = x: int | -0x8000_0000 <= x < 0x8000_0000

  /** The conversion of a signed 32-bit tag to the unsigned 32-bit tag a field stores. */
  function ToUint32(x: int32): (r: uint32)
    ensures x >= 0 ==> r as int == x as int
    ensures x < 0 ==> r as int == x as int + 0x1_0000_0000
  {
    ((x as int) % 0x1_0000_0000) as uint32
  }

  // ---------------------------------------------------------------------------
  // Kinds and labels
  // ---------------------------------------------------------------------------

  /** The kind of a field's value, and the kind a type descriptor reports.
      All numeric widths share one kind here. */
  datatype FieldType = NumericType | StringType | EnumType | MessageType | ServiceType

  datatype FieldLabel = Singular | Repeated

  // ---------------------------------------------------------------------------
  // Field descriptors
  // ---------------------------------------------------------------------------

  /** A field of a message. `containerMessage` is the full name of the message
      the field belongs to; `typeDescriptor` is the full name of the field's
      enum or message type, and none for other fields. */
  datatype FieldDescriptor = FieldDescriptor(
    name: string,
    fieldLabel: FieldLabel,
    fieldType: FieldType,
    tag: uint32,
    defaultValue: string,
    containerMessage: string,
    typeDescriptor: Option<string>,
    parseIndex: int)

  /** A field descriptor as its constructor builds it: every accessor reports
      what was given, and the signed tag is stored as an unsigned 32-bit value. */
  function NewFieldDescriptor(name: string, fieldLabel: FieldLabel, fieldType: FieldType, tag: int32,
                              defaultValue: string, containerMessage: string,
                              typeDescriptor: Option<string>, parseIndex: int): (f: FieldDescriptor)
    ensures f.name == name && f.fieldLabel == fieldLabel && f.fieldType == fieldType
    ensures f.defaultValue == defaultValue && f.containerMessage == containerMessage
    ensures f.typeDescriptor == typeDescriptor && f.parseIndex == parseIndex
    ensures tag >= 0 ==> f.tag as int == tag as int
    ensures tag < 0 ==> f.tag as int == tag as int + 0x1_0000_0000
    ensures HasDefaultValue(f) <==> defaultValue != ""
  {
    FieldDescriptor(name, fieldLabel, fieldType, ToUint32(tag), defaultValue, containerMessage, typeDescriptor, parseIndex)
  }

  /** The container message's full name, a dot, and the field name. */
  function FieldFullName(f: FieldDescriptor): (s: string)
    ensures |s| == |f.containerMessage| + 1 + |f.name|
    ensures s[..|f.containerMessage|] == f.containerMessage
    ensures s[|f.containerMessage|] == '.'
    ensures s[|f.containerMessage| + 1..] == f.name
  {
    f.containerMessage + "." + f.name
  }

  /** With dot-free field names the full name identifies the field: two fields
      share a full name exactly when they share container and name. */
  lemma FieldFullNameIdentifies(f: FieldDescriptor, g: FieldDescriptor)
    requires '.' !in f.name && '.' !in g.name
    ensures FieldFullName(f) == FieldFullName(g) <==> f.containerMessage == g.containerMessage && f.name == g.name
  {
    var s, t := FieldFullName(f), FieldFullName(g);
    if s == t && |f.containerMessage| != |g.containerMessage| {
      assert false;
    }
  }

  predicate HasDefaultValue(f: FieldDescriptor) {
    f.defaultValue != ""
  }

  predicate IsMessageType(f: FieldDescriptor) {
    f.fieldType == MessageType
  }

  /** Numeric and string fields: the fields that refer to no type descriptor. */
  predicate IsPrimitiveType(f: FieldDescriptor) {
    f.fieldType == NumericType || f.fieldType == StringType
  }

  predicate IsSingularType(f: FieldDescriptor) {
    f.fieldLabel == Singular
  }

  predicate IsRepeatedType(f: FieldDescriptor) {
    f.fieldLabel == Repeated
  }

  /** Numeric fields; an enum value travels as a number. */
  predicate IsNumericKind(f: FieldDescriptor) {
    f.fieldType == NumericType || f.fieldType == EnumType
  }

  predicate IsStringKind(f: FieldDescriptor) {
    f.fieldType == StringType
  }

  predicate IsSingularNumericType(f: FieldDescriptor) { IsSingularType(f) && IsNumericKind(f) }
  predicate IsSingularStringType(f: FieldDescriptor) { IsSingularType(f) && IsStringKind(f) }
  predicate IsSingularMessageType(f: FieldDescriptor) { IsSingularType(f) && IsMessageType(f) }
  predicate IsRepeatedNumericType(f: FieldDescriptor) { IsRepeatedType(f) && IsNumericKind(f) }
  predicate IsRepeatedStringType(f: FieldDescriptor) { IsRepeatedType(f) && IsStringKind(f) }
  predicate IsRepeatedMessageType(f: FieldDescriptor) { IsRepeatedType(f) && IsMessageType(f) }

  /** How many of the six combined predicates hold. */
  function CombinedKinds(f: FieldDescriptor): (n: nat)
    ensures n <= 1
    ensures n == 1 <==> f.fieldType != ServiceType
  {
    (if IsSingularNumericType(f) then 1 else 0) + (if IsSingularStringType(f) then 1 else 0)
    + (if IsSingularMessageType(f) then 1 else 0) + (if IsRepeatedNumericType(f) then 1 else 0)
    + (if IsRepeatedStringType(f) then 1 else 0) + (if IsRepeatedMessageType(f) then 1 else 0)
  }

  /** A field of a schema: it is not service-typed, and it refers to a type
      descriptor exactly when it is enum- or message-typed. */
  predicate ValidField(f: FieldDescriptor) {
    && f.fieldType != ServiceType
    && (f.typeDescriptor.Some? <==> f.fieldType == EnumType || f.fieldType == MessageType)
  }

  /** Every schema field is exactly one of primitive, enum-typed and message-typed;
      it is primitive exactly when it refers to no type descriptor; it is exactly
      one of singular and repeated, and exactly one of the six combinations. */
  lemma FieldClassification(f: FieldDescriptor)
    requires ValidField(f)
    ensures IsPrimitiveType(f) <==> f.typeDescriptor.None?
    ensures IsPrimitiveType(f) ==> !IsMessageType(f) && f.fieldType != EnumType
    ensures !IsPrimitiveType(f) ==> IsMessageType(f) != (f.fieldType == EnumType)
    ensures IsPrimitiveType(f) ==> IsNumericKind(f) || IsStringKind(f)
    ensures IsSingularType(f) != IsRepeatedType(f)
    ensures CombinedKinds(f) == 1
  {
  }

  // ---------------------------------------------------------------------------
  // Type descriptors
  // ---------------------------------------------------------------------------

  /** What every type descriptor has: its file's path, its name and its package. */
  datatype TypeHeader = TypeHeader(file: string, name: string, package: string)

  /** The package and the name joined by a dot; the name alone without a package. */
  function TypeFullName(h: TypeHeader): (s: string)
    ensures |s| >= |h.name| && s[|s| - |h.name|..] == h.name
    ensures h.package == "" ==> s == h.name
    ensures h.package != "" ==> |s| == |h.package| + 1 + |h.name| && s[..|h.package|] == h.package && s[|h.package|] == '.'
  {
    if h.package == "" then h.name else h.package + "." + h.name
  }

  /** Within one package, full names differ exactly when the short names do. */
  lemma TypeFullNameIdentifies(h: TypeHeader, k: TypeHeader)
    requires h.package == k.package
    ensures TypeFullName(h) == TypeFullName(k) <==> h.name == k.name
  {
    if TypeFullName(h) == TypeFullName(k) && h.package != "" {
      var n := |h.package| + 1;
      assert h.name == TypeFullName(h)[n..];
      assert k.name == TypeFullName(k)[n..];
    }
  }

  datatype EnumValue = EnumValue(name: string, value: int)

  datatype EnumDescriptor = EnumDescriptor(header: TypeHeader, values: seq<EnumValue>, nested: bool)

  datatype MessageDescriptor = MessageDescriptor(header: TypeHeader, fields: seq<FieldDescriptor>, nestedEnums: seq<EnumDescriptor>)

  datatype ServiceDescriptor = ServiceDescriptor(header: TypeHeader)

  /** A type descriptor is one of the three variants. */
  datatype TypeDescriptor =
    | MessageDesc(message: MessageDescriptor)
    | EnumDesc(enumType: EnumDescriptor)
    | ServiceDesc(service: ServiceDescriptor)

  /** The kind each variant reports, fixed by the variant. */
  function Kind(d: TypeDescriptor): (t: FieldType)
    ensures t == MessageType <==> d.MessageDesc?
    ensures t == EnumType <==> d.EnumDesc?
    ensures t == ServiceType <==> d.ServiceDesc?
  {
    match d
    case MessageDesc(_) => MessageType
    case EnumDesc(_) => EnumType
    case ServiceDesc(_) => ServiceType
  }

  // ---------------------------------------------------------------------------
  // Lookups
  // ---------------------------------------------------------------------------

  /** The first element satisfying `p`, or none. */
  function FindFirst<T(==)>(s: seq<T>, p: T -> bool): (r: Option<T>)
    ensures r.Some? <==> exists i :: 0 <= i < |s| && p(s[i])
    ensures r.Some? ==> exists i :: 0 <= i < |s| && s[i] == r.value && p(s[i]) && forall j :: 0 <= j < i ==> !p(s[j])
  {
    if s == [] then None
    else if p(s[0]) then Some(s[0])
    else
      var r := FindFirst(s[1..], p);
      assert forall i :: 0 < i < |s| ==> s[i] == s[1..][i - 1];
      if r.Some? then
        var i :| 0 <= i < |s[1..]| && s[1..][i] == r.value && p(s[1..][i]) && forall j :: 0 <= j < i ==> !p(s[1..][j]);
        assert s[i + 1] == r.value && forall j :: 0 <= j < i + 1 ==> !p(s[j]);
        r
      else
        r
  }

  /** The field with the given tag, or none. */
  function FindFieldByTag(m: MessageDescriptor, tag: uint32): (r: Option<FieldDescriptor>)
    ensures r.Some? <==> exists i :: 0 <= i < |m.fields| && m.fields[i].tag == tag
    ensures r.Some? ==> r.value in m.fields && r.value.tag == tag
  {
    FindFirst(m.fields, (f: FieldDescriptor) => f.tag == tag)
  }

  /** The field with the given name, or none. */
  function FindFieldByName(m: MessageDescriptor, name: string): (r: Option<FieldDescriptor>)
    ensures r.Some? <==> exists i :: 0 <= i < |m.fields| && m.fields[i].name == name
    ensures r.Some? ==> r.value in m.fields && r.value.name == name
  {
    FindFirst(m.fields, (f: FieldDescriptor) => f.name == name)
  }

  /** The enum declared inside the message under the given name, or none. */
  function FindNestedEnumTypeByName(m: MessageDescriptor, name: string): (r: Option<EnumDescriptor>)
    ensures r.Some? <==> exists i :: 0 <= i < |m.nestedEnums| && m.nestedEnums[i].header.name == name
    ensures r.Some? ==> r.value in m.nestedEnums && r.value.header.name == name
  {
    FindFirst(m.nestedEnums, (e: EnumDescriptor) => e.header.name == name)
  }

  /** The number of fields: zero exactly when no tag finds a field. */
  function NumFields(m: MessageDescriptor): (n: nat)
    ensures n == 0 <==> forall tag :: FindFieldByTag(m, tag).None?
  {
    assert m.fields != [] ==> FindFieldByTag(m, m.fields[0].tag).Some?;
    |m.fields|
  }

  /** The number of nested enums: zero exactly when no name finds one. */
  function NumNestedEnums(m: MessageDescriptor): (n: nat)
    ensures n == 0 <==> forall name :: FindNestedEnumTypeByName(m, name).None?
  {
    assert m.nestedEnums != [] ==> FindNestedEnumTypeByName(m, m.nestedEnums[0].header.name).Some?;
    |m.nestedEnums|
  }

  /** Tags are positive and no two fields share a tag or a name. */
  predicate WellFormedMessage(m: MessageDescriptor) {
    && (forall i :: 0 <= i < |m.fields| ==> m.fields[i].tag > 0)
    && (forall i, j :: 0 <= i < j < |m.fields| ==> m.fields[i].tag != m.fields[j].tag)
    && (forall i, j :: 0 <= i < j < |m.fields| ==> m.fields[i].name != m.fields[j].name)
  }

  /** In a well-formed message each field is found by its own tag and by its own name. */
  lemma FindFieldOfMember(m: MessageDescriptor, i: nat)
    requires WellFormedMessage(m) && i < |m.fields|
    ensures FindFieldByTag(m, m.fields[i].tag) == Some(m.fields[i])
    ensures FindFieldByName(m, m.fields[i].name) == Some(m.fields[i])
  {
    var f := m.fields[i];
    var byTag := FindFirst(m.fields, (g: FieldDescriptor) => g.tag == f.tag);
    var j :| 0 <= j < |m.fields| && m.fields[j] == byTag.value && m.fields[j].tag == f.tag;
    assert j == i;
    var byName := FindFirst(m.fields, (g: FieldDescriptor) => g.name == f.name);
    var k :| 0 <= k < |m.fields| && m.fields[k] == byName.value && m.fields[k].name == f.name;
    assert k == i;
  }

  // ---------------------------------------------------------------------------
  // Enum descriptors
  // ---------------------------------------------------------------------------

  /** An enum descriptor as its constructor builds it: no values yet, and the nested flag as given. */
  function NewEnumDescriptor(file: string, name: string, package: string, nested: bool): (e: EnumDescriptor)
    ensures e.header == TypeHeader(file, name, package)
    ensures NumberEnums(e) == 0 && IsNested(e) == nested
    ensures forall v :: !ContainsEnum(e, v)
  {
    EnumDescriptor(TypeHeader(file, name, package), [], nested)
  }

  /** The number of values: zero exactly when the enum contains no name. */
  function NumberEnums(e: EnumDescriptor): (n: nat)
    ensures n == 0 <==> forall name :: !ContainsEnum(e, name)
  {
    assert e.values != [] ==> ContainsEnum(e, e.values[0].name);
    |e.values|
  }

  /** The nested flag: a nested enum is the one the file's nested-enum count includes. */
  function IsNested(e: EnumDescriptor): (b: bool)
    ensures b <==> CountEnums([e], true) == 1
    ensures !b <==> CountEnums([e], false) == 1
  {
    assert [e][1..] == [];
    e.nested
  }

  /** Whether a value of the enum is called `name`. */
  function ContainsEnum(e: EnumDescriptor, name: string): (r: bool)
    ensures r <==> exists i :: 0 <= i < |e.values| && e.values[i].name == name
  {
    FindFirst(e.values, (v: EnumValue) => v.name == name).Some?
  }

  /** The name of the first enum value equal to `value`; empty when there is none. */
  function EnumValueAsString(e: EnumDescriptor, value: int): (r: string)
    ensures (forall i :: 0 <= i < |e.values| ==> e.values[i].value != value) ==> r == ""
    ensures (exists i :: 0 <= i < |e.values| && e.values[i].value == value)
        ==> exists i :: 0 <= i < |e.values| && e.values[i].value == value && e.values[i].name == r
  {
    match FindFirst(e.values, (v: EnumValue) => v.value == value)
    case Some(v) => v.name
    case None => ""
  }

  /** No two values of the enum share a number. */
  predicate DistinctValues(e: EnumDescriptor) {
    forall i, j :: 0 <= i < j < |e.values| ==> e.values[i].value != e.values[j].value
  }

  /** With distinct numbers, a value's number maps back to its own name. */
  lemma EnumValueRoundTrip(e: EnumDescriptor, i: nat)
    requires DistinctValues(e) && i < |e.values|
    ensures EnumValueAsString(e, e.values[i].value) == e.values[i].name
    ensures ContainsEnum(e, EnumValueAsString(e, e.values[i].value))
  {
    var v := e.values[i];
    var found := FindFirst(e.values, (w: EnumValue) => w.value == v.value);
    var j :| 0 <= j < |e.values| && e.values[j] == found.value && e.values[j].value == v.value;
    assert j == i;
  }

  // ---------------------------------------------------------------------------
  // File descriptors
  // ---------------------------------------------------------------------------

  /** A schema file's descriptor. `enums` holds both top-level enums and enums
      declared inside messages, told apart by their nested flag. */
  datatype ProtoFileDescriptor = ProtoFileDescriptor(
    path: string,
    messages: seq<MessageDescriptor>,
    enums: seq<EnumDescriptor>,
    services: seq<ServiceDescriptor>)

  /** The number of messages: zero exactly when no full name finds one. */
  function FileNumMessages(file: ProtoFileDescriptor): (n: nat)
    ensures n == 0 <==> forall name :: FindMessageTypeByName(file, name).None?
  {
    assert file.messages != [] ==> FindMessageTypeByName(file, TypeFullName(file.messages[0].header)).Some?;
    |file.messages|
  }

  /** The number of services: zero exactly when no full name finds one. */
  function FileNumServices(file: ProtoFileDescriptor): (n: nat)
    ensures n == 0 <==> forall name :: FindServiceTypeByName(file, name).None?
  {
    assert file.services != [] ==> FindServiceTypeByName(file, TypeFullName(file.services[0].header)).Some?;
    |file.services|
  }

  /** How many of the enums carry the given nested flag. */
  function CountEnums(enums: seq<EnumDescriptor>, nested: bool): (n: nat)
    ensures n <= |enums|
    ensures n == 0 <==> forall i :: 0 <= i < |enums| ==> enums[i].nested != nested
  {
    if enums == [] then 0
    else
      assert forall i :: 0 < i < |enums| ==> enums[i] == enums[1..][i - 1];
      (if enums[0].nested == nested then 1 else 0) + CountEnums(enums[1..], nested)
  }

  /** The number of top-level enums: together with the nested ones, all enums of the file. */
  function FileNumEnums(file: ProtoFileDescriptor): (n: nat)
    ensures n + FileNumNestedEnums(file) == |file.enums|
  {
    EnumCountsPartition(file.enums);
    CountEnums(file.enums, false)
  }

  /** The number of nested enums: zero exactly when every enum of the file is top-level. */
  function FileNumNestedEnums(file: ProtoFileDescriptor): (n: nat)
    ensures n == 0 <==> forall i :: 0 <= i < |file.enums| ==> !IsNested(file.enums[i])
  {
    CountEnums(file.enums, true)
  }

  /** Every enum of a file is counted exactly once: as top-level or as nested. */
  lemma {:induction false} EnumCountsPartition(enums: seq<EnumDescriptor>)
    ensures CountEnums(enums, false) + CountEnums(enums, true) == |enums|
  {
    if enums != [] {
      EnumCountsPartition(enums[1..]);
    }
  }

  /** The message whose full name is `name`, or none. */
  function FindMessageTypeByName(file: ProtoFileDescriptor, name: string): (r: Option<MessageDescriptor>)
    ensures r.Some? <==> exists i :: 0 <= i < |file.messages| && TypeFullName(file.messages[i].header) == name
    ensures r.Some? ==> r.value in file.messages && TypeFullName(r.value.header) == name
  {
    FindFirst(file.messages, (m: MessageDescriptor) => TypeFullName(m.header) == name)
  }

  /** The enum whose full name is `name`, or none. */
  function FindEnumTypeByName(file: ProtoFileDescriptor, name: string): (r: Option<EnumDescriptor>)
    ensures r.Some? <==> exists i :: 0 <= i < |file.enums| && TypeFullName(file.enums[i].header) == name
    ensures r.Some? ==> r.value in file.enums && TypeFullName(r.value.header) == name
  {
    FindFirst(file.enums, (e: EnumDescriptor) => TypeFullName(e.header) == name)
  }

  /** The service whose full name is `name`, or none. */
  function FindServiceTypeByName(file: ProtoFileDescriptor, name: string): (r: Option<ServiceDescriptor>)
    ensures r.Some? <==> exists i :: 0 <= i < |file.services| && TypeFullName(file.services[i].header) == name
    ensures r.Some? ==> r.value in file.services && TypeFullName(r.value.header) == name
  {
    FindFirst(file.services, (s: ServiceDescriptor) => TypeFullName(s.header) == name)
  }
}
