/** The schema compiler's `message` declaration: a name-keyed map of fields,
    the same fields as a list in the order they were added (reordered by tag
    when the message is printed), and a name-keyed map of nested enums. */
module CompilerMessage {
  import opened Optional
  import opened CompilerEnumType

  /** A field as the schema parser hands it to a message. */
  datatype MessageField = MessageField(name: string, tag: int, typeName: string, defaultValue: string)

  // ---------------------------------------------------------------------------
  // The list/map agreement that every message keeps
  // ---------------------------------------------------------------------------

  /** The field list holds exactly one entry per map key: every listed field is
      the one its name maps to, every mapped field is listed, and there are as
      many list entries as keys. */
  ghost predicate ListMatchesMap(list: seq<MessageField>, fields: map<string, MessageField>) {
    && (forall n :: n in fields ==> fields[n].name == n && fields[n] in list)
    && (forall f :: f in list ==> f.name in fields && fields[f.name] == f)
    && |list| == |fields|
  }

  /** The set of names occurring in a field list. */
  ghost function Names(list: seq<MessageField>): set<string> {
    if list == [] then {} else {list[0].name} + Names(list[1..])
  }

  lemma {:induction false} NamesMember(list: seq<MessageField>, n: string)
    ensures n in Names(list) <==> exists f :: f in list && f.name == n
  {
    if list != [] {
      NamesMember(list[1..], n);
      if n in Names(list[1..]) {
        var f :| f in list[1..] && f.name == n;
        assert f in list;
      }
      forall f | f in list && f.name == n && f != list[0]
        ensures n in Names(list[1..])
      {
        assert f in list[1..];
      }
    }
  }

  lemma {:induction false} NamesBound(list: seq<MessageField>)
    ensures |Names(list)| <= |list|
  {
    if list != [] {
      NamesBound(list[1..]);
    }
  }

  lemma {:induction false} NamesConcat(a: seq<MessageField>, b: seq<MessageField>)
    ensures Names(a + b) == Names(a) + Names(b)
  {
    if a == [] {
      assert a + b == b;
    } else {
      assert (a + b)[1..] == a[1..] + b;
      NamesConcat(a[1..], b);
    }
  }

  /** Two list entries with the same name leave fewer names than entries. */
  lemma NamesShrink(list: seq<MessageField>, i: nat, j: nat)
    requires i < j < |list| && list[i].name == list[j].name
    ensures |Names(list)| < |list|
  {
    var a, c, b := list[..j], list[j..], list[j + 1..];
    assert list == a + c;
    assert c[0] == list[j] && c[1..] == b;
    assert Names(c) == {list[j].name} + Names(b);
    assert list[j].name in Names(a) by {
      assert a[i] == list[i];
      NamesMember(a, list[j].name);
    }
    NamesConcat(a, c);
    NamesConcat(a, b);
    assert Names(list) == Names(a + b);
    NamesBound(a + b);
  }

  /** The agreement implies that no two list entries share a name. */
  lemma FieldNamesDistinct(list: seq<MessageField>, fields: map<string, MessageField>)
    requires ListMatchesMap(list, fields)
    ensures forall i, j :: 0 <= i < j < |list| ==> list[i].name != list[j].name
  {
    assert fields.Keys == Names(list) by {
      forall n | n in fields ensures n in Names(list) {
        NamesMember(list, n);
        assert fields[n] in list;
      }
      forall n | n in Names(list) ensures n in fields {
        NamesMember(list, n);
      }
    }
    assert |Names(list)| == |list|;
    forall i, j | 0 <= i < j < |list| ensures list[i].name != list[j].name {
      if list[i].name == list[j].name {
        NamesShrink(list, i, j);
        assert false;
      }
    }
  }

  /** Reordering the list keeps the agreement with the map. */
  lemma ListMatchesMapPermutation(list: seq<MessageField>, list': seq<MessageField>, fields: map<string, MessageField>)
    requires ListMatchesMap(list, fields)
    requires multiset(list') == multiset(list)
    ensures ListMatchesMap(list', fields)
  {
    assert |list'| == |multiset(list')| == |multiset(list)| == |list|;
    forall f ensures f in list' <==> f in list {
      assert f in list' <==> f in multiset(list');
      assert f in list <==> f in multiset(list);
    }
  }

  // ---------------------------------------------------------------------------
  // Ordering fields by tag
  // ---------------------------------------------------------------------------

  /** Ascending tag order, the order the comparator of `Print` asks for. */
  ghost predicate SortedByTag(list: seq<MessageField>) {
    forall i, j :: 0 <= i < j < |list| ==> list[i].tag <= list[j].tag
  }

  /** The head of a sorted list has a tag no larger than any later entry. */
  lemma HeadIsLeast(list: seq<MessageField>)
    requires list != [] && SortedByTag(list)
    ensures forall g :: g in list[1..] ==> list[0].tag <= g.tag
  {
    forall g | g in list[1..] ensures list[0].tag <= g.tag {
      var m :| 0 <= m < |list[1..]| && list[1..][m] == g;
      assert list[m + 1] == g;
    }
  }

  /** Putting a field no later than any entry in front of a sorted list keeps it sorted. */
  lemma PrependSorted(h: MessageField, list: seq<MessageField>)
    requires SortedByTag(list) && forall g :: g in list ==> h.tag <= g.tag
    ensures SortedByTag([h] + list)
  {
    forall i, j | 0 <= i < j < |[h] + list| ensures ([h] + list)[i].tag <= ([h] + list)[j].tag {
      if i == 0 {
        assert ([h] + list)[j] == list[j - 1];
        assert list[j - 1] in list;
      } else {
        assert ([h] + list)[i] == list[i - 1] && ([h] + list)[j] == list[j - 1];
      }
    }
  }

  /** Inserts `f` into a tag-sorted list, before the first field with a larger or equal tag. */
  function InsertByTag(f: MessageField, list: seq<MessageField>): (r: seq<MessageField>)
    requires SortedByTag(list)
    ensures SortedByTag(r)
    ensures forall g :: g in r ==> g == f || g in list
    ensures multiset(r) == multiset(list) + multiset{f}
  {
    if list == [] then
      [f]
    else if f.tag <= list[0].tag then
      PrependSorted(f, list);
      [f] + list
    else
      assert list == [list[0]] + list[1..];
      var rest := InsertByTag(f, list[1..]);
      HeadIsLeast(list);
      PrependSorted(list[0], rest);
      [list[0]] + rest
  }

  /** The field list reordered into ascending tag order. */
  function SortByTag(list: seq<MessageField>): (r: seq<MessageField>)
    ensures SortedByTag(r)
    ensures multiset(r) == multiset(list)
  {
    if list == [] then []
    else
      assert list == [list[0]] + list[1..];
      InsertByTag(list[0], SortByTag(list[1..]))
  }

  // ---------------------------------------------------------------------------
  // The message
  // ---------------------------------------------------------------------------

  class Message {
    const name: string
    const package: string
    var fieldsMap: map<string, MessageField>
    var fieldsList: seq<MessageField>
    var enumsMap: map<string, EnumType>

    ghost predicate Valid()
      reads this
    {
      && ListMatchesMap(fieldsList, fieldsMap)
      && forall n :: n in enumsMap ==> enumsMap[n].name == n
    }

    /** A message with no fields and no nested enums. */
    constructor (name: string, package: string)
      ensures Valid()
      ensures this.name == name && this.package == package
      ensures fieldsMap == map[] && fieldsList == [] && enumsMap == map[]
    {
      this.name := name;
      this.package := package;
      fieldsMap := map[];
      fieldsList := [];
      enumsMap := map[];
    }

    /** Adds a field unless a field of the same name exists; only the name is
        checked, so a field reusing another field's tag is accepted. */
    method AddField(f: MessageField) returns (ok: bool)
      requires Valid()
      modifies this
      ensures Valid()
      ensures ok <==> f.name !in old(fieldsMap)
      ensures ok ==> fieldsMap == old(fieldsMap)[f.name := f] && fieldsList == old(fieldsList) + [f]
      ensures !ok ==> fieldsMap == old(fieldsMap) && fieldsList == old(fieldsList)
      ensures FindMessage(f.name) == if ok then Some(f) else old(FindMessage(f.name))
      ensures forall n :: n != f.name ==> FindMessage(n) == old(FindMessage(n))
      ensures enumsMap == old(enumsMap)
    {
      if f.name in fieldsMap {
        return false;
      }
      fieldsMap := fieldsMap[f.name := f];
      fieldsList := fieldsList + [f];
      return true;
    }

    /** Adds a nested enum unless an enum of the same name exists. */
    method AddEnum(e: EnumType) returns (ok: bool)
      requires Valid()
      modifies this
      ensures Valid()
      ensures ok <==> e.name !in old(enumsMap)
      ensures ok ==> enumsMap == old(enumsMap)[e.name := e]
      ensures !ok ==> enumsMap == old(enumsMap)
      ensures FindEnumType(e.name) == if ok then e else old(FindEnumType(e.name))
      ensures forall n :: n != e.name ==> FindEnumType(n) == old(FindEnumType(n))
      ensures fieldsMap == old(fieldsMap) && fieldsList == old(fieldsList)
    {
      if e.name in enumsMap {
        return false;
      }
      enumsMap := enumsMap[e.name := e];
      return true;
    }

    /** The field named `n`, or `None` when no such field was added. */
    function FindMessage(n: string): (r: Option<MessageField>)
      reads this
      requires Valid()
      ensures r.Some? <==> exists f :: f in fieldsList && f.name == n
      ensures r.Some? ==> r.value in fieldsList && r.value.name == n
    {
      if n in fieldsMap then Some(fieldsMap[n]) else None
    }

    /** The nested enum named `n`, or `null` when no such enum was added. */
    function FindEnumType(n: string): (r: EnumType?)
      reads this
      requires Valid()
      ensures r != null <==> n in enumsMap
      ensures r != null ==> r.name == n
    {
      if n in enumsMap then enumsMap[n] else null
    }

    /** The fields in list order: one entry per field name, each the field its name finds. */
    function FieldsList(): (r: seq<MessageField>)
      reads this
      requires Valid()
      ensures |r| == |fieldsMap|
      ensures forall i :: 0 <= i < |r| ==> FindMessage(r[i].name) == Some(r[i])
      ensures forall i, j :: 0 <= i < j < |r| ==> r[i].name != r[j].name
    {
      FieldNamesDistinct(fieldsList, fieldsMap);
      fieldsList
    }

    /** The nested enums, each under its own name. */
    function EnumsMap(): (r: map<string, EnumType>)
      reads this
      requires Valid()
      ensures forall n :: n in r ==> r[n].name == n && FindEnumType(n) == r[n]
    {
      enumsMap
    }

    /** The state change of `Print`: the field list is put in ascending tag order. */
    method Print()
      requires Valid()
      modifies this
      ensures Valid()
      ensures SortedByTag(fieldsList)
      ensures multiset(fieldsList) == multiset(old(fieldsList))
      ensures fieldsMap == old(fieldsMap) && enumsMap == old(enumsMap)
    {
      var sorted := SortByTag(fieldsList);
      ListMatchesMapPermutation(fieldsList, sorted, fieldsMap);
      fieldsList := sorted;
    }
  }

  /** Two fields with different names and the same tag are both accepted. */
  method AddFieldsSharingTag(a: MessageField, b: MessageField) returns (okA: bool, okB: bool, list: seq<MessageField>)
    requires a.name != b.name && a.tag == b.tag
    ensures okA && okB && list == [a, b]
  {
    var m := new Message("M", "");
    okA := m.AddField(a);
    okB := m.AddField(b);
    list := m.FieldsList();
  }

  /** A second field with an existing name is refused and the first one is kept. */
  method AddFieldsSharingName(a: MessageField, b: MessageField) returns (okA: bool, okB: bool, found: Option<MessageField>, count: nat)
    requires a.name == b.name
    ensures okA && !okB && found == Some(a) && count == 1
  {
    var m := new Message("M", "");
    okA := m.AddField(a);
    okB := m.AddField(b);
    found := m.FindMessage(b.name);
    count := |m.FieldsList()|;
  }

  /** A fresh message finds no field and no enum; after adding an enum it finds that enum. */
  method AddEnumThenFind(e: EnumType, other: string) returns (before: EnumType?, after: EnumType?, missing: Option<MessageField>)
    ensures before == null && after == e && missing == None
  {
    var m := new Message("M", "");
    before := m.FindEnumType(e.name);
    var ok := m.AddEnum(e);
    after := m.FindEnumType(e.name);
    missing := m.FindMessage(other);
  }
}
