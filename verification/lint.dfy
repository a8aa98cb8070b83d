/** The `@lint` directive's settings: the text cases a linter can enforce,
    their display names, and the record of optional settings with its
    serialised key names. */
module Lint {
  import opened Wrappers

  datatype TextCase = Camel | Pascal | Snake | ScreamingSnake

  /** The inverse of `Display`: the text case a display string names. */
  function ParseDisplay(s: string): Option<TextCase> {
    if s == "camelCase" then Some(Camel)
    else if s == "PascalCase" then Some(Pascal)
    else if s == "snake_case" then Some(Snake)
    else if s == "SCREAMING_SNAKE_CASE" then Some(ScreamingSnake)
    else None
  }

  /** The `Display` text of a text case, written in that case. */
  function Display(c: TextCase): (s: string)
    ensures ParseDisplay(s) == Some(c)
  {
    match c
    case Camel => "camelCase"
    case Pascal => "PascalCase"
    case Snake => "snake_case"
    case ScreamingSnake => "SCREAMING_SNAKE_CASE"
  }

  /** Distinct text cases display differently, and a string parses only if
      it is the display of what it parses to. */
  lemma DisplayInjective(a: TextCase, b: TextCase, s: string)
    ensures Display(a) == Display(b) ==> a == b
    ensures ParseDisplay(s) == Some(a) ==> s == Display(a)
  {
    assert ParseDisplay(Display(a)) == Some(a);
    assert ParseDisplay(Display(b)) == Some(b);
  }

  // ---------------------------------------------------------------------
  // The settings record and its serialised form
  // ---------------------------------------------------------------------

  /** The lint settings; every one is optional. */
  datatype LintSettings = LintSettings(
    autoFix: Option<bool>,
    enumLint: Option<TextCase>,
    enumValueLint: Option<TextCase>,
    fieldLint: Option<TextCase>,
    typeLint: Option<TextCase>)

  /** The five settings, to name their serialised keys. */
  datatype Setting = AutoFix | EnumLint | EnumValueLint | FieldLint | TypeLint

  /** The setting a serialised key names, if any. */
  function SettingOfKey(key: string): Option<Setting> {
    if key == "autoFix" then Some(AutoFix)
    else if key == "enum" then Some(EnumLint)
    else if key == "enumValue" then Some(EnumValueLint)
    else if key == "field" then Some(FieldLint)
    else if key == "type" then Some(TypeLint)
    else None
  }

  /** The serialised key of a setting (the field's rename). */
  function KeyName(setting: Setting): (key: string)
    ensures SettingOfKey(key) == Some(setting)
  {
    match setting
    case AutoFix => "autoFix"
    case EnumLint => "enum"
    case EnumValueLint => "enumValue"
    case FieldLint => "field"
    case TypeLint => "type"
  }

  /** The five key names are pairwise distinct. */
  lemma KeyNamesDistinct(a: Setting, b: Setting)
    ensures KeyName(a) == KeyName(b) ==> a == b
  {
    assert SettingOfKey(KeyName(a)) == Some(a);
    assert SettingOfKey(KeyName(b)) == Some(b);
  }

  /** A JSON value, as far as the settings need one. */
  datatype Json =
    | JNull
    | JBool(b: bool)
    | JNumber(n: int)
    | JString(s: string)
    | JArray(items: seq<Json>)
    | JObject(members: map<string, Json>)

  /** A text case is serialised as its variant name. */
  function VariantName(c: TextCase): string {
    match c
    case Camel => "Camel"
    case Pascal => "Pascal"
    case Snake => "Snake"
    case ScreamingSnake => "ScreamingSnake"
  }

  function TextCaseOfVariant(s: string): Option<TextCase> {
    if s == "Camel" then Some(Camel)
    else if s == "Pascal" then Some(Pascal)
    else if s == "Snake" then Some(Snake)
    else if s == "ScreamingSnake" then Some(ScreamingSnake)
    else None
  }

  function OptionalBool(o: Option<bool>): Json {
    match o
    case None => JNull
    case Some(b) => JBool(b)
  }

  function OptionalCase(o: Option<TextCase>): Json {
    match o
    case None => JNull
    case Some(c) => JString(VariantName(c))
  }

  /** Serialisation: one member per setting under its key, `null` for an
      unset one. */
  function Serialize(l: LintSettings): (j: Json)
    ensures j.JObject?
    ensures forall s: Setting :: KeyName(s) in j.members
    ensures forall key :: key in j.members ==> SettingOfKey(key).Some?
    ensures Deserialize(j) == Success(l)
  {
    var j := JObject(map[
      "autoFix" := OptionalBool(l.autoFix),
      "enum" := OptionalCase(l.enumLint),
      "enumValue" := OptionalCase(l.enumValueLint),
      "field" := OptionalCase(l.fieldLint),
      "type" := OptionalCase(l.typeLint)]);
    ReadOptionalBool(j.members, "autoFix", l.autoFix);
    ReadOptionalCase(j.members, "enum", l.enumLint);
    ReadOptionalCase(j.members, "enumValue", l.enumValueLint);
    ReadOptionalCase(j.members, "field", l.fieldLint);
    ReadOptionalCase(j.members, "type", l.typeLint);
    j
  }

  lemma ReadOptionalBool(members: map<string, Json>, key: string, o: Option<bool>)
    requires key in members && members[key] == OptionalBool(o)
    ensures ReadBool(members, key) == Success(o)
  {
  }

  lemma ReadOptionalCase(members: map<string, Json>, key: string, o: Option<TextCase>)
    requires key in members && members[key] == OptionalCase(o)
    ensures ReadCase(members, key) == Success(o)
  {
    if o.Some? {
      assert TextCaseOfVariant(VariantName(o.value)) == Some(o.value);
    }
  }

  /** An optional boolean value: `null` is unset. */
  function ReadBoolValue(v: Json, key: string): Result<Option<bool>, string> {
    match v
    case JNull => Success(None)
    case JBool(b) => Success(Some(b))
    case _ => Failure("invalid type for " + key)
  }

  /** The text case whose variant name is a key of `m`, if any. */
  function VariantKeyOf(m: map<string, Json>): (r: Option<TextCase>)
    ensures r.Some? ==> VariantName(r.value) in m
    ensures r.None? ==> forall c: TextCase :: VariantName(c) !in m
  {
    if "Camel" in m then Some(Camel)
    else if "Pascal" in m then Some(Pascal)
    else if "Snake" in m then Some(Snake)
    else if "ScreamingSnake" in m then Some(ScreamingSnake)
    else None
  }

  /** An optional text-case value: `null` is unset; otherwise a variant
      name, either as a string or as an object with that one key and a
      `null` value (the map form of a unit variant). */
  function ReadCaseValue(v: Json, key: string): Result<Option<TextCase>, string> {
    match v
    case JNull => Success(None)
    case JString(s) =>
      (match TextCaseOfVariant(s)
       case Some(c) => Success(Some(c))
       case None => Failure("unknown variant for " + key))
    case JObject(m) =>
      if |m| != 1 then Failure("invalid type for " + key)
      else
        (match VariantKeyOf(m)
         case None => Failure("unknown variant for " + key)
         case Some(c) =>
           if m[VariantName(c)] == JNull then Success(Some(c)) else Failure("invalid type for " + key))
    case _ => Failure("invalid type for " + key)
  }

  /** A text case reads the same written as its variant name and as an
      object holding that name with a `null` value. */
  lemma UnitVariantObject(c: TextCase, key: string)
    ensures ReadCaseValue(JObject(map[VariantName(c) := JNull]), key) == Success(Some(c))
    ensures ReadCaseValue(JString(VariantName(c)), key) == Success(Some(c))
  {
    var one := map[VariantName(c) := JNull];
    assert one.Keys == {VariantName(c)};
    assert VariantKeyOf(one) == Some(c);
    assert TextCaseOfVariant(VariantName(c)) == Some(c);
  }

  /** An object is read as a text case exactly when it holds one variant
      name with a `null` value. */
  lemma ObjectTextCase(m: map<string, Json>, key: string)
    ensures ReadCaseValue(JObject(m), key).Success? <==> exists c: TextCase :: m == map[VariantName(c) := JNull]
  {
    if ReadCaseValue(JObject(m), key).Success? {
      var c := VariantKeyOf(m).value;
      SingleKey(m, VariantName(c));
      assert m == map[VariantName(c) := JNull];
    }
    if exists c: TextCase :: m == map[VariantName(c) := JNull] {
      var c: TextCase :| m == map[VariantName(c) := JNull];
      UnitVariantObject(c, key);
    }
  }

  /** A map with one entry has exactly the key it holds. */
  lemma SingleKey(m: map<string, Json>, k: string)
    requires |m| == 1 && k in m
    ensures m.Keys == {k}
  {
    var rest := m.Keys - {k};
    assert m.Keys == rest + {k};
    assert |rest| == 0;
  }

  /** An optional boolean member: absent is unset. */
  function ReadBool(members: map<string, Json>, key: string): Result<Option<bool>, string> {
    if key !in members then Success(None) else ReadBoolValue(members[key], key)
  }

  /** An optional text-case member: absent is unset. */
  function ReadCase(members: map<string, Json>, key: string): Result<Option<TextCase>, string> {
    if key !in members then Success(None) else ReadCaseValue(members[key], key)
  }

  /** Deserialisation, as the derived implementation reads JSON: an object
      whose known keys carry values of the right kind (unknown keys are
      ignored), or an array of exactly the five values in declaration
      order. */
  function Deserialize(j: Json): Result<LintSettings, string> {
    match j
    case JObject(members) =>
      var autoFix :- ReadBool(members, KeyName(AutoFix));
      var enumLint :- ReadCase(members, KeyName(EnumLint));
      var enumValueLint :- ReadCase(members, KeyName(EnumValueLint));
      var fieldLint :- ReadCase(members, KeyName(FieldLint));
      var typeLint :- ReadCase(members, KeyName(TypeLint));
      Success(LintSettings(autoFix, enumLint, enumValueLint, fieldLint, typeLint))
    case JArray(items) =>
      if |items| != 5 then Failure("invalid length")
      else
        var autoFix :- ReadBoolValue(items[0], KeyName(AutoFix));
        var enumLint :- ReadCaseValue(items[1], KeyName(EnumLint));
        var enumValueLint :- ReadCaseValue(items[2], KeyName(EnumValueLint));
        var fieldLint :- ReadCaseValue(items[3], KeyName(FieldLint));
        var typeLint :- ReadCaseValue(items[4], KeyName(TypeLint));
        Success(LintSettings(autoFix, enumLint, enumValueLint, fieldLint, typeLint))
    case _ => Failure("expected an object or an array")
  }

  /** The object holding the five values of an array under their keys. */
  function ArrayAsObject(items: seq<Json>): map<string, Json>
    requires |items| == 5
  {
    map[KeyName(AutoFix) := items[0], KeyName(EnumLint) := items[1], KeyName(EnumValueLint) := items[2],
        KeyName(FieldLint) := items[3], KeyName(TypeLint) := items[4]]
  }

  /** An array of five values reads as the object holding them under the
      five keys in declaration order; an array of any other length is
      refused. */
  lemma ArrayMatchesObject(items: seq<Json>)
    ensures |items| == 5 ==> Deserialize(JArray(items)) == Deserialize(JObject(ArrayAsObject(items)))
    ensures |items| != 5 ==> Deserialize(JArray(items)).Failure?
  {
    if |items| == 5 {
      var m := ArrayAsObject(items);
      assert m[KeyName(AutoFix)] == items[0];
      assert m[KeyName(EnumLint)] == items[1];
      assert m[KeyName(EnumValueLint)] == items[2];
      assert m[KeyName(FieldLint)] == items[3];
      assert m[KeyName(TypeLint)] == items[4];
    }
  }

  /** The settings written as an array in declaration order read back as
      the same settings. */
  lemma ArrayRoundTrip(l: LintSettings)
    ensures Deserialize(JArray([OptionalBool(l.autoFix), OptionalCase(l.enumLint), OptionalCase(l.enumValueLint),
                                OptionalCase(l.fieldLint), OptionalCase(l.typeLint)])) == Success(l)
  {
    var items := [OptionalBool(l.autoFix), OptionalCase(l.enumLint), OptionalCase(l.enumValueLint),
                  OptionalCase(l.fieldLint), OptionalCase(l.typeLint)];
    var m := ArrayAsObject(items);
    ArrayMatchesObject(items);
    ReadOptionalBool(m, KeyName(AutoFix), l.autoFix);
    ReadOptionalCase(m, KeyName(EnumLint), l.enumLint);
    ReadOptionalCase(m, KeyName(EnumValueLint), l.enumValueLint);
    ReadOptionalCase(m, KeyName(FieldLint), l.fieldLint);
    ReadOptionalCase(m, KeyName(TypeLint), l.typeLint);
  }

  /** `Lint::default()`: every setting unset, which is also what an empty
      settings object deserialises to. */
  function Default(): (l: LintSettings)
    ensures l.autoFix.None? && l.enumLint.None? && l.enumValueLint.None?
    ensures l.fieldLint.None? && l.typeLint.None?
    ensures Deserialize(JObject(map[])) == Success(l)
  {
    LintSettings(None, None, None, None, None)
  }

  /** Keys that name no setting are ignored, however many there are. */
  lemma DeserializeIgnoresUnknownKeys(members: map<string, Json>, extra: map<string, Json>)
    requires forall key :: key in extra ==> SettingOfKey(key).None?
    ensures Deserialize(JObject(members + extra)) == Deserialize(JObject(members))
  {
    forall s: Setting ensures KeyName(s) !in extra {
      assert SettingOfKey(KeyName(s)) == Some(s);
    }
  }

  /** A setting's key left out reads the same as the key set to `null`. */
  lemma AbsentIsNull(members: map<string, Json>, setting: Setting)
    requires KeyName(setting) !in members
    ensures Deserialize(JObject(members[KeyName(setting) := JNull])) == Deserialize(JObject(members))
  {
    var k := KeyName(setting);
    NullReadsAsAbsent(members, k, KeyName(AutoFix));
    NullReadsAsAbsent(members, k, KeyName(EnumLint));
    NullReadsAsAbsent(members, k, KeyName(EnumValueLint));
    NullReadsAsAbsent(members, k, KeyName(FieldLint));
    NullReadsAsAbsent(members, k, KeyName(TypeLint));
  }

  lemma NullReadsAsAbsent(members: map<string, Json>, k: string, key: string)
    requires k !in members
    ensures ReadBool(members[k := JNull], key) == ReadBool(members, key)
    ensures ReadCase(members[k := JNull], key) == ReadCase(members, key)
  {
  }
}
