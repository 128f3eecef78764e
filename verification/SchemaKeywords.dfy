/** What src/utilities/app_json_schema.c reads from one schema object: the kind its type text
    is taken for, and the checks of its keywords. */
module SchemaKeywords {
  import opened Wrappers

  /** The types of JSON values; a null is no kind of item. */
  datatype Kind = ArrayKind | ObjectKind | BoolKind | IntegerKind | RealKind | StringKind | NullKind

  /** The "type" field: missing or not a string, or its text. */
  datatype TypeField = Missing | Text(text: string)

  /** A schema object as the parser looks it up: the types of its keywords' values, the types
      of the elements of "enum", the elements of "required" (None for one that is no string)
      and the properties. */
  datatype Schema = Schema(
    typeField: TypeField,
    keywords: map<string, Kind>,
    enumItems: seq<Kind>,
    required: seq<Option<string>>,
    properties: seq<Property>)

  datatype Property = Property(name: string, schema: Schema)

  // ------------------------------------------------------------------- types

  /** strncmp of a text with another over the length of the text (which holds no NUL). */
  predicate Begins(text: string, other: string) {
    text <= other
  }

  /** The cascade of comparisons: scalars are recognised below the root only. */
  function Recognise(text: string, top: bool): Option<Kind> {
    if Begins(text, "array") then Some(ArrayKind)
    else if Begins(text, "object") then Some(ObjectKind)
    else if top then None
    else if Begins(text, "boolean") then Some(BoolKind)
    else if Begins(text, "integer") then Some(IntegerKind)
    else if Begins(text, "number") then Some(RealKind)
    else if Begins(text, "string") then Some(StringKind)
    else None
  }

  /** The kind of a schema, if it has a recognised type. */
  function KindOf(s: Schema, top: bool): Option<Kind> {
    if s.typeField.Missing? then None else Recognise(s.typeField.text, top)
  }

  /** The type a text names in full. */
  function Named(text: string, top: bool): Option<Kind> {
    if text == "array" then Some(ArrayKind)
    else if text == "object" then Some(ObjectKind)
    else if top then None
    else if text == "boolean" then Some(BoolKind)
    else if text == "integer" then Some(IntegerKind)
    else if text == "number" then Some(RealKind)
    else if text == "string" then Some(StringKind)
    else None
  }

  /** Whether a text is the beginning of a type's name, and not all of it. */
  predicate BeginsName(text: string, top: bool) {
    || (Begins(text, "array") && text != "array")
    || (Begins(text, "object") && text != "object")
    || (!top && Begins(text, "boolean") && text != "boolean")
    || (!top && Begins(text, "integer") && text != "integer")
    || (!top && Begins(text, "number") && text != "number")
    || (!top && Begins(text, "string") && text != "string")
  }

  lemma FirstLetter(text: string, other: string)
    ensures Begins(text, other) && text != [] ==> other != [] && text[0] == other[0]
  {
  }

  /** A text is taken for the type it names, exactly when it is not the mere beginning of a
      name. */
  lemma RecogniseIsNamed(text: string, top: bool)
    ensures Recognise(text, top) == Named(text, top) <==> !BeginsName(text, top)
  {
    if text != [] {
      FirstLetter(text, "array");
      FirstLetter(text, "object");
      FirstLetter(text, "boolean");
      FirstLetter(text, "integer");
      FirstLetter(text, "number");
      FirstLetter(text, "string");
    }
  }

  /** The text "s" is taken for string, and the empty text for array. */
  lemma BeginningsRecognised()
    ensures Recognise("s", false) == Some(StringKind) && Named("s", false) == None
    ensures Recognise("", true) == Some(ArrayKind) && Named("", true) == None
  {
    FirstLetter("s", "array");
    FirstLetter("s", "object");
    FirstLetter("s", "boolean");
    FirstLetter("s", "integer");
    FirstLetter("s", "number");
  }

  // ---------------------------------------------------------------- keywords

  /** A keyword is absent, or its value has the type. */
  predicate Is(s: Schema, keyword: string, kind: Kind) {
    keyword in s.keywords ==> s.keywords[keyword] == kind
  }

  function MaximumName(kind: Kind): string {
    if kind == ArrayKind then "maxItems"
    else if kind == ObjectKind then "maxProperties"
    else if kind == StringKind then "maxLength"
    else "maximum"
  }

  function MinimumName(kind: Kind): string {
    if kind == ArrayKind then "minItems"
    else if kind == ObjectKind then "minProperties"
    else if kind == StringKind then "minLength"
    else "minimum"
  }

  function BoundKind(kind: Kind): Kind {
    if kind == RealKind then RealKind else IntegerKind
  }

  /** "enum" is a list; and unless the item is an object, of values of the item's type. */
  predicate EnumFits(s: Schema, kind: Kind) {
    && Is(s, "enum", ArrayKind)
    && ("enum" in s.keywords && kind != ObjectKind ==>
          forall i :: 0 <= i < |s.enumItems| ==> s.enumItems[i] == kind)
  }

  /** The search for a name in the parent's "required": every element up to the first one that
      begins the name is a string. */
  predicate Searchable(name: string, required: seq<Option<string>>) {
    required == [] || (required[0].Some? && (Begins(required[0].value, name) || Searchable(name, required[1..])))
  }

  /** The checks that count. */
  predicate Checks(s: Schema, kind: Kind, name: string, required: seq<Option<string>>) {
    && Is(s, "default", kind) && Is(s, "description", StringKind) && Is(s, "title", StringKind)
    && Is(s, MaximumName(kind), BoundKind(kind)) && Is(s, MinimumName(kind), BoundKind(kind))
    && EnumFits(s, kind)
    && (name != [] ==> Searchable(name, required))
  }

  /** The checks before them, of the keywords of one type only. */
  predicate EarlyChecks(s: Schema, kind: Kind) {
    match kind
    case ArrayKind => Is(s, "uniqueItems", BoolKind) && Is(s, "additionalItems", BoolKind) && Is(s, "items", ArrayKind)
    case StringKind => Is(s, "pattern", StringKind) && Is(s, "format", StringKind)
    case IntegerKind =>
      Is(s, "exclusiveMaximum", BoolKind) && Is(s, "exclusiveMinimum", BoolKind) && Is(s, "multipleOf", kind)
    case RealKind =>
      Is(s, "exclusiveMaximum", BoolKind) && Is(s, "exclusiveMinimum", BoolKind) && Is(s, "multipleOf", kind)
    case ObjectKind => Is(s, "additionalProperties", BoolKind) || Is(s, "additionalProperties", ObjectKind)
    case _ => true
  }

  /** The keyword part of app_json_schema_allocate_item. The outcome of the early checks is
      overwritten before it is used. */
  method CheckKeywords(s: Schema, kind: Kind, name: string, required: seq<Option<string>>) returns (ok: bool)
    ensures ok <==> Checks(s, kind, name, required)
  {
    ok := EarlyChecks(s, kind);
    ok := true;
    if !Is(s, "default", kind) || !Is(s, "description", StringKind) || !Is(s, "title", StringKind)
       || !Is(s, MaximumName(kind), BoundKind(kind)) || !Is(s, MinimumName(kind), BoundKind(kind))
    {
      ok := false;
    }
    ok := CheckEnum(s, kind, ok);
    if name != [] {
      ok := FindRequired(name, required, ok);
    }
  }

  method CheckEnum(s: Schema, kind: Kind, before: bool) returns (ok: bool)
    ensures ok <==> before && EnumFits(s, kind)
  {
    ok := before;
    if !Is(s, "enum", ArrayKind) {
      ok := false;
    } else if "enum" in s.keywords && kind != ObjectKind {
      var i := 0;
      while ok && i < |s.enumItems|
        invariant i <= |s.enumItems|
        invariant ok <==> before && forall k :: 0 <= k < i ==> s.enumItems[k] == kind
      {
        if s.enumItems[i] != kind {
          ok := false;
        }
        i := i + 1;
      }
    }
  }

  method FindRequired(name: string, required: seq<Option<string>>, before: bool) returns (ok: bool)
    ensures ok <==> before && Searchable(name, required)
  {
    ok := before;
    var i, found := 0, false;
    while ok && !found && i < |required|
      invariant i <= |required|
      invariant before && Searchable(name, required) <==> ok && (found || Searchable(name, required[i..]))
    {
      assert required[i..][0] == required[i] && required[i..][1..] == required[i + 1..];
      ok := required[i].Some?;
      if ok && Begins(required[i].value, name) {
        found := true;
      }
      i := i + 1;
    }
  }

  /** What an item's acceptance depends on: two schemas that agree on the six keywords that
      count, and on the elements of "enum", are accepted alike, whatever the early checks
      would say of them. */
  lemma OnlyTheseCount(s: Schema, t: Schema, kind: Kind, name: string, required: seq<Option<string>>)
    requires s.enumItems == t.enumItems
    requires forall k <- ["default", "description", "title", "enum", MaximumName(kind), MinimumName(kind)] ::
               (k in s.keywords <==> k in t.keywords) && (k in s.keywords ==> s.keywords[k] == t.keywords[k])
    ensures Checks(s, kind, name, required) <==> Checks(t, kind, name, required)
  {
    var ks := ["default", "description", "title", "enum", MaximumName(kind), MinimumName(kind)];
    assert ks[0] in ks && ks[1] in ks && ks[2] in ks && ks[3] in ks && ks[4] in ks && ks[5] in ks;
  }

  /** A string whose pattern is a number is accepted. */
  lemma BadPatternAccepted(name: string)
    ensures var s := Schema(Text("string"), map["pattern" := IntegerKind], [], [], []);
            Checks(s, StringKind, name, []) && !EarlyChecks(s, StringKind)
  {
  }

  /** A keyword is not there, or has a value of that type. */
  predicate Typed(s: Schema, keyword: string, kind: Kind) {
    keyword !in s.keywords || s.keywords[keyword] == kind
  }

  /** What the checks ask of every item. */
  predicate Described(s: Schema, kind: Kind, name: string, required: seq<Option<string>>) {
    && Typed(s, "default", kind) && Typed(s, "description", StringKind) && Typed(s, "title", StringKind)
    && Typed(s, "enum", ArrayKind)
    && ("enum" in s.keywords && kind != ObjectKind ==> forall i :: 0 <= i < |s.enumItems| ==> s.enumItems[i] == kind)
    && (name != "" ==> forall i :: 0 <= i < |required| && required[i].None? ==> FoundBefore(name, required, i))
  }

  /** An earlier element of "required" is a beginning of the name. */
  predicate FoundBefore(name: string, required: seq<Option<string>>, i: nat)
    requires i <= |required|
  {
    exists j :: 0 <= j < i && required[j].Some? && required[j].value <= name
  }

  /** The checks of each type, with the names of its bounds. */
  lemma {:induction false} ChecksAre(s: Schema, name: string, required: seq<Option<string>>)
    ensures Checks(s, ArrayKind, name, required)
       <==> Described(s, ArrayKind, name, required) && Typed(s, "maxItems", IntegerKind) && Typed(s, "minItems", IntegerKind)
    ensures Checks(s, ObjectKind, name, required)
       <==> Described(s, ObjectKind, name, required)
            && Typed(s, "maxProperties", IntegerKind) && Typed(s, "minProperties", IntegerKind)
    ensures Checks(s, StringKind, name, required)
       <==> Described(s, StringKind, name, required) && Typed(s, "maxLength", IntegerKind) && Typed(s, "minLength", IntegerKind)
    ensures Checks(s, IntegerKind, name, required)
       <==> Described(s, IntegerKind, name, required) && Typed(s, "maximum", IntegerKind) && Typed(s, "minimum", IntegerKind)
    ensures Checks(s, BoolKind, name, required)
       <==> Described(s, BoolKind, name, required) && Typed(s, "maximum", IntegerKind) && Typed(s, "minimum", IntegerKind)
    ensures Checks(s, RealKind, name, required)
       <==> Described(s, RealKind, name, required) && Typed(s, "maximum", RealKind) && Typed(s, "minimum", RealKind)
  {
    SearchableIs(name, required);
  }

  lemma {:induction false} SearchableIs(name: string, required: seq<Option<string>>)
    ensures Searchable(name, required)
       <==> forall i :: 0 <= i < |required| && required[i].None? ==> FoundBefore(name, required, i)
  {
    if required != [] {
      var rest := required[1..];
      SearchableIs(name, rest);
      if required[0].None? {
        assert !FoundBefore(name, required, 0);
      } else if Begins(required[0].value, name) {
        assert forall i :: 0 < i < |required| ==> FoundBefore(name, required, i);
      } else {
        forall i | 0 <= i < |rest| ensures FoundBefore(name, rest, i) <==> FoundBefore(name, required, i + 1) {
          if FoundBefore(name, required, i + 1) {
            var j :| 0 <= j < i + 1 && required[j].Some? && required[j].value <= name;
            assert rest[j - 1] == required[j];
          }
          if j :| 0 <= j < i && rest[j].Some? && rest[j].value <= name {
            assert required[j + 1] == rest[j];
          }
        }
        assert forall i :: 0 <= i < |rest| ==> rest[i] == required[i + 1];
      }
    }
  }
}
