/**
 * The schema registry of the form extractor: for each language, the
 * template of the National Insurance form, every leaf an empty string.
 */
module FormSchema {
  import opened Json

  // ---------------------------------------------------------------------
  // The templates

  /** One entry of a template: a blank field, or a group of blank fields. */
  datatype Entry = Leaf(key: string) | Group(key: string, members: seq<string>)

  function Blank(key: string): Field {
    Field(key, Str(""))
  }

  /** A group: one blank field per member, in order. */
  function GroupValue(members: seq<string>): (v: Value)
    ensures v.Obj? && |v.fields| == |members|
    ensures forall j :: 0 <= j < |members| ==> v.fields[j] == Blank(members[j])
  {
    Obj(seq(|members|, j requires 0 <= j < |members| => Blank(members[j])))
  }

  function EntryField(e: Entry): Field {
    match e
    case Leaf(k) => Blank(k)
    case Group(k, members) => Field(k, GroupValue(members))
  }

  /** The dictionary an entry list spells out, entries in order. */
  function Template(entries: seq<Entry>): (t: Value)
    ensures t.Obj? && |t.fields| == |entries|
    ensures forall i :: 0 <= i < |entries| ==> t.fields[i] == EntryField(entries[i])
  {
    Obj(seq(|entries|, i requires 0 <= i < |entries| => EntryField(entries[i])))
  }


  const EnglishIdentity: seq<Entry> := [
    Leaf("lastName"), Leaf("firstName"), Leaf("idNumber"), Leaf("gender"),
    Group("dateOfBirth", ["day", "month", "year"]),
    Group("address", ["street", "houseNumber", "entrance", "apartment", "city", "postalCode", "poBox"])]
  const EnglishWork: seq<Entry> := [
    Leaf("landlinePhone"), Leaf("mobilePhone"), Leaf("jobType"),
    Group("dateOfInjury", ["day", "month", "year"]), Leaf("timeOfInjury")]
  const EnglishAccident: seq<Entry> := [
    Leaf("accidentLocation"), Leaf("accidentAddress"), Leaf("accidentDescription"), Leaf("injuredBodyPart")]
  const EnglishSigning: seq<Entry> := [
    Leaf("signature"), Group("formFillingDate", ["day", "month", "year"]),
    Group("formReceiptDateAtClinic", ["day", "month", "year"]),
    Group("medicalInstitutionFields", ["healthFundMember", "natureOfAccident", "medicalDiagnoses"])]

  /** The English template's 19 entries, in the order of the form. */
  const EnglishEntries: seq<Entry> := EnglishIdentity + EnglishWork + EnglishAccident + EnglishSigning

  const HebrewIdentity: seq<Entry> := [
    Leaf("שם משפחה"), Leaf("שם פרטי"), Leaf("מספר זהות"), Leaf("מין"),
    Group("תאריך לידה", ["יום", "חודש", "שנה"]),
    Group("כתובת", ["רחוב", "מספר בית", "כניסה", "דירה", "ישוב", "מיקוד", "תא דואר"])]
  const HebrewWork: seq<Entry> := [
    Leaf("טלפון קווי"), Leaf("טלפון נייד"), Leaf("סוג העבודה"),
    Group("תאריך הפגיעה", ["יום", "חודש", "שנה"]), Leaf("שעת הפגיעה")]
  const HebrewAccident: seq<Entry> := [
    Leaf("מקום התאונה"), Leaf("כתובת מקום התאונה"), Leaf("תיאור התאונה"), Leaf("האיבר שנפגע")]
  const HebrewSigning: seq<Entry> := [
    Leaf("חתימה"), Group("תאריך מילוי הטופס", ["יום", "חודש", "שנה"]),
    Group("תאריך קבלת הטופס בקופה", ["יום", "חודש", "שנה"]),
    Group("למילוי ע\"י המוסד הרפואי", ["חבר בקופת חולים", "מהות התאונה", "אבחנות רפואיות"])]

  /** The Hebrew template's 19 entries, in the order of the form. */
  const HebrewEntries: seq<Entry> := HebrewIdentity + HebrewWork + HebrewAccident + HebrewSigning

  function EnglishSchema(): Value {
    Template(EnglishEntries)
  }

  function HebrewSchema(): Value {
    Template(HebrewEntries)
  }

  /** `get_schema`: Hebrew for "he", English for every other language string. */
  function GetSchema(language: string): (r: Value)
    ensures r.Obj? && |r.fields| == 19
  {
    if language == "he" then HebrewSchema() else EnglishSchema()
  }

  /** A key that a dotted path can be split back on: non-empty and free of '.'. */
  predicate GoodKey(key: string) {
    key != "" && '.' !in key
  }

  function KeysOf(fields: seq<Field>): (r: seq<string>)
    ensures |r| == |fields| && forall i :: 0 <= i < |fields| ==> r[i] == fields[i].key
  {
    seq(|fields|, i requires 0 <= i < |fields| => fields[i].key)
  }

  /** Keys are unique within every group, and every key is a GoodKey. */
  predicate WellKeyed(schema: Value)
    requires schema.Obj?
    decreases schema
  {
    && UniqueKeys(schema.fields)
    && (forall k :: k in KeysOf(schema.fields) ==> GoodKey(k))
    && forall i :: 0 <= i < |schema.fields| && schema.fields[i].value.Obj? ==> WellKeyed(schema.fields[i].value)
  }

  /** Every leaf of the template is the empty string. */
  predicate BlankLeaves(schema: Value)
    requires schema.Obj?
    decreases schema
  {
    forall i :: 0 <= i < |schema.fields| ==>
      var v := schema.fields[i].value;
      v == Str("") || (v.Obj? && BlankLeaves(v))
  }

  /** The key paths of the leaves from entry `i` of a template on, in depth-first order. */
  function Leaves(schema: Value, i: nat): (r: seq<seq<string>>)
    requires schema.Obj? && i <= |schema.fields|
    decreases schema, |schema.fields| - i
  {
    if i == |schema.fields| then []
    else
      var f := schema.fields[i];
      (if f.value.Obj? then Prefixed(f.key, Leaves(f.value, 0)) else [[f.key]]) + Leaves(schema, i + 1)
  }

  /** Each path with `key` in front. */
  function Prefixed(key: string, paths: seq<seq<string>>): (r: seq<seq<string>>)
    ensures |r| == |paths|
    ensures forall j :: 0 <= j < |r| ==> r[j] == [key] + paths[j]
  {
    seq(|paths|, j requires 0 <= j < |paths| => [key] + paths[j])
  }

  /** Both templates: 19 top-level keys, 35 leaves, all blank, keys unique and dot-free. */
  lemma SchemaShape(language: string)
    ensures var s := GetSchema(language);
      && |s.fields| == 19
      && |Leaves(s, 0)| == 35
      && BlankLeaves(s)
      && WellKeyed(s)
  {
    var entries := if language == "he" then HebrewEntries else EnglishEntries;
    assert GetSchema(language) == Template(entries);
    TemplateLeaves(entries, 0);
    assert entries[0..] == entries;
    if language == "he" {
      HebrewWidth();
    } else {
      EnglishWidth();
    }
    TemplateBlank(entries);
    if language == "he" {
      HebrewGood();
    } else {
      EnglishGood();
    }
    TemplateWellKeyed(entries);
  }

  /** The Hebrew template is chosen exactly for "he"; any other string, known or not, gets English. */
  lemma SchemaLanguage(language: string)
    ensures GetSchema(language) == HebrewSchema() <==> language == "he"
    ensures GetSchema(language) == EnglishSchema() <==> language != "he"
  {
    assert HebrewSchema().fields[0].key != EnglishSchema().fields[0].key;
  }

  // ---------------------------------------------------------------------
  // What every template built from entries satisfies

  /** No element occurs twice. */
  predicate Distinct<T(==)>(s: seq<T>) {
    forall i, j :: 0 <= i < j < |s| ==> s[i] != s[j]
  }

  /** The template's top-level keys are the entries' keys, in order. */
  lemma TemplateKeys(entries: seq<Entry>)
    ensures var keys := KeysOf(Template(entries).fields);
      |keys| == |entries| && forall i :: 0 <= i < |entries| ==> keys[i] == entries[i].key
  {
    var t := Template(entries);
    forall i | 0 <= i < |entries|
      ensures t.fields[i].key == entries[i].key
    {
      assert t.fields[i] == EntryField(entries[i]);
    }
  }

  /** Keys a dotted path can be split back on, none repeated. */
  predicate GoodMembers(keys: seq<string>) {
    Distinct(keys) && forall k :: k in keys ==> GoodKey(k)
  }

  /** Distinct good keys at the top and within every group. */
  predicate GoodEntries(entries: seq<Entry>) {
    && GoodMembers(KeysOf(Template(entries).fields))
    && forall e :: e in entries && e.Group? ==> GoodMembers(e.members)
  }

  /** The number of leaves an entry list spells out. */
  function Width(entries: seq<Entry>): nat {
    if entries == [] then 0
    else (if entries[0].Group? then |entries[0].members| else 1) + Width(entries[1..])
  }

  lemma {:induction false} WidthAppend(a: seq<Entry>, b: seq<Entry>)
    ensures Width(a + b) == Width(a) + Width(b)
  {
    if a == [] {
      assert a + b == b;
    } else {
      assert (a + b)[0] == a[0];
      assert (a + b)[1..] == a[1..] + b;
      WidthAppend(a[1..], b);
    }
  }

  lemma {:induction false} GroupLeaves(members: seq<string>, i: nat)
    requires i <= |members|
    ensures |Leaves(GroupValue(members), i)| == |members| - i
    decreases |members| - i
  {
    if i < |members| {
      GroupLeaves(members, i + 1);
    }
  }

  lemma {:induction false} TemplateLeaves(entries: seq<Entry>, i: nat)
    requires i <= |entries|
    ensures |Leaves(Template(entries), i)| == Width(entries[i..])
    decreases |entries| - i
  {
    if i < |entries| {
      TemplateLeaves(entries, i + 1);
      if entries[i].Group? {
        GroupLeaves(entries[i].members, 0);
      }
      assert entries[i..][1..] == entries[i + 1..];
    }
  }

  lemma TemplateBlank(entries: seq<Entry>)
    ensures BlankLeaves(Template(entries))
  {
    var t := Template(entries);
    forall i | 0 <= i < |entries| && entries[i].Group?
      ensures BlankLeaves(t.fields[i].value)
    {
      assert t.fields[i].value == GroupValue(entries[i].members);
    }
  }

  lemma TemplateWellKeyed(entries: seq<Entry>)
    requires GoodEntries(entries)
    ensures WellKeyed(Template(entries))
  {
    var t := Template(entries);
    forall i | 0 <= i < |t.fields| && t.fields[i].value.Obj?
      ensures WellKeyed(t.fields[i].value)
    {
      assert entries[i] in entries;
      var members := entries[i].members;
      assert KeysOf(GroupValue(members).fields) == members;
    }
  }

  // ---------------------------------------------------------------------
  // The two entry lists

  lemma EnglishMembersGood()
    ensures GoodMembers(["day", "month", "year"]) && GoodMembers(["street", "houseNumber", "entrance", "apartment", "city", "postalCode", "poBox"]) && GoodMembers(["healthFundMember", "natureOfAccident", "medicalDiagnoses"])
  {
    EnglishDateGood();
    EnglishAddressGood();
    EnglishMedicalGood();
  }

  lemma EnglishDateGood()
    ensures GoodMembers(["day", "month", "year"])
  {
  }

  lemma EnglishAddressGood()
    ensures GoodMembers(["street", "houseNumber", "entrance", "apartment", "city", "postalCode", "poBox"])
  {
  }

  lemma EnglishMedicalGood()
    ensures GoodMembers(["healthFundMember", "natureOfAccident", "medicalDiagnoses"])
  {
  }

  lemma EnglishGroupsGood()
    ensures forall e :: e in EnglishEntries && e.Group? ==> GoodMembers(e.members)
  {
    EnglishMembersGood();
  }

  lemma EnglishKeysGood0()
    ensures forall k :: k in ["lastName", "firstName", "idNumber", "gender", "dateOfBirth"] ==> GoodKey(k)
  {
  }

  lemma EnglishKeysGood1()
    ensures forall k :: k in ["address", "landlinePhone", "mobilePhone", "jobType", "dateOfInjury"] ==> GoodKey(k)
  {
  }

  lemma EnglishKeysGood2()
    ensures forall k :: k in ["timeOfInjury", "accidentLocation", "accidentAddress", "accidentDescription", "injuredBodyPart"] ==> GoodKey(k)
  {
  }

  lemma EnglishKeysGood3()
    ensures forall k :: k in ["signature", "formFillingDate", "formReceiptDateAtClinic", "medicalInstitutionFields"] ==> GoodKey(k)
  {
  }

  lemma EnglishKeysDistinct(keys: seq<string>)
    requires keys == ["lastName", "firstName", "idNumber", "gender", "dateOfBirth", "address", "landlinePhone", "mobilePhone", "jobType", "dateOfInjury", "timeOfInjury", "accidentLocation", "accidentAddress", "accidentDescription", "injuredBodyPart", "signature", "formFillingDate", "formReceiptDateAtClinic", "medicalInstitutionFields"]
    ensures Distinct(keys)
  {
  }

  /** The top-level keys, in order: distinct and dot-free. */
  lemma EnglishKeys()
    ensures GoodMembers(KeysOf(Template(EnglishEntries).fields))
  {
    var keys := KeysOf(Template(EnglishEntries).fields);
    TemplateKeys(EnglishEntries);
    assert keys == ["lastName", "firstName", "idNumber", "gender", "dateOfBirth", "address", "landlinePhone", "mobilePhone", "jobType", "dateOfInjury", "timeOfInjury", "accidentLocation", "accidentAddress", "accidentDescription", "injuredBodyPart", "signature", "formFillingDate", "formReceiptDateAtClinic", "medicalInstitutionFields"];
    EnglishKeysDistinct(keys);
    EnglishKeysGood0();
    EnglishKeysGood1();
    EnglishKeysGood2();
    EnglishKeysGood3();
  }

  /** 6 + 3 + 3 + 7 + 1 + 1 leaves, and so on through the four sections. */
  lemma EnglishWidth()
    ensures Width(EnglishEntries) == 35
  {
    WidthAppend(EnglishIdentity, EnglishWork);
    WidthAppend(EnglishIdentity + EnglishWork, EnglishAccident);
    WidthAppend(EnglishIdentity + EnglishWork + EnglishAccident, EnglishSigning);
    EnglishIdentityWidth();
    EnglishWorkWidth();
    EnglishAccidentWidth();
    EnglishSigningWidth();
  }

  lemma EnglishIdentityWidth()
    ensures Width(EnglishIdentity) == 14
  {
  }

  lemma EnglishWorkWidth()
    ensures Width(EnglishWork) == 7
  {
  }

  lemma EnglishAccidentWidth()
    ensures Width(EnglishAccident) == 4
  {
  }

  lemma EnglishSigningWidth()
    ensures Width(EnglishSigning) == 10
  {
  }

  lemma EnglishGood()
    ensures GoodEntries(EnglishEntries)
  {
    EnglishKeys();
    EnglishGroupsGood();
  }

  lemma HebrewMembersGood()
    ensures GoodMembers(["יום", "חודש", "שנה"]) && GoodMembers(["רחוב", "מספר בית", "כניסה", "דירה", "ישוב", "מיקוד", "תא דואר"]) && GoodMembers(["חבר בקופת חולים", "מהות התאונה", "אבחנות רפואיות"])
  {
    HebrewDateGood();
    HebrewAddressGood();
    HebrewMedicalGood();
  }

  lemma HebrewDateGood()
    ensures GoodMembers(["יום", "חודש", "שנה"])
  {
  }

  lemma HebrewAddressGood()
    ensures GoodMembers(["רחוב", "מספר בית", "כניסה", "דירה", "ישוב", "מיקוד", "תא דואר"])
  {
  }

  lemma HebrewMedicalGood()
    ensures GoodMembers(["חבר בקופת חולים", "מהות התאונה", "אבחנות רפואיות"])
  {
  }

  lemma HebrewGroupsGood()
    ensures forall e :: e in HebrewEntries && e.Group? ==> GoodMembers(e.members)
  {
    HebrewMembersGood();
  }

  lemma HebrewKeysGood0()
    ensures forall k :: k in ["שם משפחה", "שם פרטי", "מספר זהות", "מין", "תאריך לידה"] ==> GoodKey(k)
  {
  }

  lemma HebrewKeysGood1()
    ensures forall k :: k in ["כתובת", "טלפון קווי", "טלפון נייד", "סוג העבודה", "תאריך הפגיעה"] ==> GoodKey(k)
  {
  }

  lemma HebrewKeysGood2()
    ensures forall k :: k in ["שעת הפגיעה", "מקום התאונה", "כתובת מקום התאונה", "תיאור התאונה", "האיבר שנפגע"] ==> GoodKey(k)
  {
  }

  lemma HebrewKeysGood3()
    ensures forall k :: k in ["חתימה", "תאריך מילוי הטופס", "תאריך קבלת הטופס בקופה", "למילוי ע\"י המוסד הרפואי"] ==> GoodKey(k)
  {
  }

  lemma HebrewKeysDistinct(keys: seq<string>)
    requires keys == ["שם משפחה", "שם פרטי", "מספר זהות", "מין", "תאריך לידה", "כתובת", "טלפון קווי", "טלפון נייד", "סוג העבודה", "תאריך הפגיעה", "שעת הפגיעה", "מקום התאונה", "כתובת מקום התאונה", "תיאור התאונה", "האיבר שנפגע", "חתימה", "תאריך מילוי הטופס", "תאריך קבלת הטופס בקופה", "למילוי ע\"י המוסד הרפואי"]
    ensures Distinct(keys)
  {
  }

  /** The top-level keys, in order: distinct and dot-free. */
  lemma HebrewKeys()
    ensures GoodMembers(KeysOf(Template(HebrewEntries).fields))
  {
    var keys := KeysOf(Template(HebrewEntries).fields);
    TemplateKeys(HebrewEntries);
    assert keys == ["שם משפחה", "שם פרטי", "מספר זהות", "מין", "תאריך לידה", "כתובת", "טלפון קווי", "טלפון נייד", "סוג העבודה", "תאריך הפגיעה", "שעת הפגיעה", "מקום התאונה", "כתובת מקום התאונה", "תיאור התאונה", "האיבר שנפגע", "חתימה", "תאריך מילוי הטופס", "תאריך קבלת הטופס בקופה", "למילוי ע\"י המוסד הרפואי"];
    HebrewKeysDistinct(keys);
    HebrewKeysGood0();
    HebrewKeysGood1();
    HebrewKeysGood2();
    HebrewKeysGood3();
  }

  /** 6 + 3 + 3 + 7 + 1 + 1 leaves, and so on through the four sections. */
  lemma HebrewWidth()
    ensures Width(HebrewEntries) == 35
  {
    WidthAppend(HebrewIdentity, HebrewWork);
    WidthAppend(HebrewIdentity + HebrewWork, HebrewAccident);
    WidthAppend(HebrewIdentity + HebrewWork + HebrewAccident, HebrewSigning);
    HebrewIdentityWidth();
    HebrewWorkWidth();
    HebrewAccidentWidth();
    HebrewSigningWidth();
  }

  lemma HebrewIdentityWidth()
    ensures Width(HebrewIdentity) == 14
  {
  }

  lemma HebrewWorkWidth()
    ensures Width(HebrewWork) == 7
  {
  }

  lemma HebrewAccidentWidth()
    ensures Width(HebrewAccident) == 4
  {
  }

  lemma HebrewSigningWidth()
    ensures Width(HebrewSigning) == 10
  {
  }

  lemma HebrewGood()
    ensures GoodEntries(HebrewEntries)
  {
    HebrewKeys();
    HebrewGroupsGood();
  }
}
