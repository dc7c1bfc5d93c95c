/**
 * The `UserInfo` record of the chatbot back end: eight required fields,
 * two of them nine-digit strings, an age between 0 and 120 and three
 * closed choices. A record is built from a decoded JSON object the way
 * `UserInfo(**obj)` builds it: entries the record does not name are
 * ignored, and a missing or wrongly typed entry rejects the object.
 */
module Profile {
  import opened Wrappers
  import opened Json
  import opened Text

  datatype UserInfo = UserInfo(
    firstName: string,
    lastName: string,
    idNumber: string,
    gender: string,
    age: int,
    hmo: string,
    cardNumber: string,
    tier: string)

  const Genders: set<string> := {"male", "female", "other"}
  /** Maccabi, Meuhedet, Clalit. */
  const Hmos: set<string> := {"מכבי", "מאוחדת", "כללית"}
  /** Gold, silver, bronze. */
  const Tiers: set<string> := {"זהב", "כסף", "ארד"}

  /** The field names, in declaration order. */
  const RequiredKeys: seq<string> :=
    ["first_name", "last_name", "id_number", "gender", "age", "hmo", "card_number", "tier"]

  /** The pattern `^\d{9}$`. */
  predicate NineDigits(s: string) {
    |s| == 9 && AllDigits(s)
  }

  /** The field constraints of `UserInfo`. */
  predicate Valid(u: UserInfo) {
    && NineDigits(u.idNumber)
    && u.gender in Genders
    && 0 <= u.age <= 120
    && u.hmo in Hmos
    && NineDigits(u.cardNumber)
    && u.tier in Tiers
  }

  /** The text under `key`, if the object has a string there. */
  function TextAt(fields: seq<Field>, key: string): Option<string> {
    match Lookup(fields, key, Null)
    case Str(s) => Some(s)
    case _ => None
  }

  /** The integer under `key`, if the object has one there. */
  function NumberAt(fields: seq<Field>, key: string): Option<int> {
    match Lookup(fields, key, Null)
    case Int(i) => Some(i)
    case _ => None
  }

  /**
   * `UserInfo(**obj)` for a decoded object: the record when every field is
   * present with its type and meets its constraint, nothing otherwise.
   */
  function FromJson(fields: seq<Field>): (r: Option<UserInfo>)
    ensures r.Some? ==> Valid(r.value)
    ensures r.Some? ==>
      && Lookup(fields, "first_name", Null) == Str(r.value.firstName)
      && Lookup(fields, "last_name", Null) == Str(r.value.lastName)
      && Lookup(fields, "id_number", Null) == Str(r.value.idNumber)
      && Lookup(fields, "gender", Null) == Str(r.value.gender)
      && Lookup(fields, "age", Null) == Int(r.value.age)
      && Lookup(fields, "hmo", Null) == Str(r.value.hmo)
      && Lookup(fields, "card_number", Null) == Str(r.value.cardNumber)
      && Lookup(fields, "tier", Null) == Str(r.value.tier)
  {
    Build(
      TextAt(fields, "first_name"), TextAt(fields, "last_name"), TextAt(fields, "id_number"),
      TextAt(fields, "gender"), NumberAt(fields, "age"), TextAt(fields, "hmo"),
      TextAt(fields, "card_number"), TextAt(fields, "tier"))
  }

  /** The record from its eight looked-up fields, when all are there and it meets the constraints. */
  function Build(
    first: Option<string>, last: Option<string>, id: Option<string>, gender: Option<string>,
    age: Option<int>, hmo: Option<string>, card: Option<string>, tier: Option<string>
  ): (r: Option<UserInfo>)
    ensures r.Some? ==> Valid(r.value)
    ensures r.Some? ==>
      && first == Some(r.value.firstName) && last == Some(r.value.lastName)
      && id == Some(r.value.idNumber) && gender == Some(r.value.gender)
      && age == Some(r.value.age) && hmo == Some(r.value.hmo)
      && card == Some(r.value.cardNumber) && tier == Some(r.value.tier)
  {
    if first.None? || last.None? || id.None? || gender.None? || age.None? || hmo.None? || card.None? || tier.None?
    then None
    else
      var u := UserInfo(first.value, last.value, id.value, gender.value, age.value, hmo.value, card.value, tier.value);
      if Valid(u) then Some(u) else None
  }

  /**
   * `user_info.dict()`: the record as an object, fields in declaration
   * order, each field's value under its name.
   */
  function ToJson(u: UserInfo): (v: Value)
    ensures v.Obj? && |v.fields| == |RequiredKeys|
    ensures forall j :: 0 <= j < |RequiredKeys| ==> v.fields[j].key == RequiredKeys[j]
    ensures && Lookup(v.fields, "first_name", Null) == Str(u.firstName)
            && Lookup(v.fields, "last_name", Null) == Str(u.lastName)
            && Lookup(v.fields, "id_number", Null) == Str(u.idNumber)
            && Lookup(v.fields, "gender", Null) == Str(u.gender)
            && Lookup(v.fields, "age", Null) == Int(u.age)
            && Lookup(v.fields, "hmo", Null) == Str(u.hmo)
            && Lookup(v.fields, "card_number", Null) == Str(u.cardNumber)
            && Lookup(v.fields, "tier", Null) == Str(u.tier)
  {
    var f := [
      Field("first_name", Str(u.firstName)),
      Field("last_name", Str(u.lastName)),
      Field("id_number", Str(u.idNumber)),
      Field("gender", Str(u.gender)),
      Field("age", Int(u.age)),
      Field("hmo", Str(u.hmo)),
      Field("card_number", Str(u.cardNumber)),
      Field("tier", Str(u.tier))];
    RequiredKeysDistinct();
    assert forall j :: 0 <= j < |RequiredKeys| ==> f[j].key == RequiredKeys[j];
    assert UniqueKeys(f);
    LookupUnique(f, 0, Null);
    LookupUnique(f, 1, Null);
    LookupUnique(f, 2, Null);
    LookupUnique(f, 3, Null);
    LookupUnique(f, 4, Null);
    LookupUnique(f, 5, Null);
    LookupUnique(f, 6, Null);
    LookupUnique(f, 7, Null);
    Obj(f)
  }

  /** The field names start with eight different letters, so no two are equal. */
  lemma RequiredKeysDistinct()
    ensures forall i, j :: 0 <= i < j < |RequiredKeys| ==> RequiredKeys[i] != RequiredKeys[j]
  {
    var firsts := seq(|RequiredKeys|, i requires 0 <= i < |RequiredKeys| => RequiredKeys[i][0]);
    assert firsts == ['f', 'l', 'i', 'g', 'a', 'h', 'c', 't'];
  }

  /** Only the eight looked-up entries matter to `FromJson`. */
  lemma FromJsonByLookups(f1: seq<Field>, f2: seq<Field>)
    requires forall k :: k in RequiredKeys ==> Lookup(f1, k, Null) == Lookup(f2, k, Null)
    ensures FromJson(f1) == FromJson(f2)
  {
    assert "first_name" in RequiredKeys && "last_name" in RequiredKeys;
    assert "id_number" in RequiredKeys && "gender" in RequiredKeys;
    assert "age" in RequiredKeys && "hmo" in RequiredKeys;
    assert "card_number" in RequiredKeys && "tier" in RequiredKeys;
    SameTexts(f1, f2);
  }

  lemma SameTexts(f1: seq<Field>, f2: seq<Field>)
    requires Lookup(f1, "first_name", Null) == Lookup(f2, "first_name", Null)
    requires Lookup(f1, "last_name", Null) == Lookup(f2, "last_name", Null)
    requires Lookup(f1, "id_number", Null) == Lookup(f2, "id_number", Null)
    requires Lookup(f1, "gender", Null) == Lookup(f2, "gender", Null)
    requires Lookup(f1, "age", Null) == Lookup(f2, "age", Null)
    requires Lookup(f1, "hmo", Null) == Lookup(f2, "hmo", Null)
    requires Lookup(f1, "card_number", Null) == Lookup(f2, "card_number", Null)
    requires Lookup(f1, "tier", Null) == Lookup(f2, "tier", Null)
    ensures FromJson(f1) == FromJson(f2)
  {
    Agree(f1, f2, "first_name");
    Agree(f1, f2, "last_name");
    Agree(f1, f2, "id_number");
    Agree(f1, f2, "gender");
    Agree(f1, f2, "age");
    Agree(f1, f2, "hmo");
    Agree(f1, f2, "card_number");
    Agree(f1, f2, "tier");
  }

  /** Equal entries under `k` read back as equal texts and numbers. */
  lemma Agree(f1: seq<Field>, f2: seq<Field>, k: string)
    requires Lookup(f1, k, Null) == Lookup(f2, k, Null)
    ensures TextAt(f1, k) == TextAt(f2, k) && NumberAt(f1, k) == NumberAt(f2, k)
  {
  }

  /**
   * A record written out with `.dict()` and read back is the same record
   * exactly when it meets the constraints: the record the chat end point
   * hands out is accepted again by the question end point.
   */
  lemma RoundTrip(u: UserInfo)
    ensures FromJson(ToJson(u).fields) == if Valid(u) then Some(u) else None
  {
    FromJsonAccepts(ToJson(u).fields, u);
  }

  /** An object with every field well typed is accepted exactly when the record it spells meets the constraints. */
  lemma FromJsonAccepts(fields: seq<Field>, u: UserInfo)
    requires Lookup(fields, "first_name", Null) == Str(u.firstName)
    requires Lookup(fields, "last_name", Null) == Str(u.lastName)
    requires Lookup(fields, "id_number", Null) == Str(u.idNumber)
    requires Lookup(fields, "gender", Null) == Str(u.gender)
    requires Lookup(fields, "age", Null) == Int(u.age)
    requires Lookup(fields, "hmo", Null) == Str(u.hmo)
    requires Lookup(fields, "card_number", Null) == Str(u.cardNumber)
    requires Lookup(fields, "tier", Null) == Str(u.tier)
    ensures FromJson(fields) == if Valid(u) then Some(u) else None
  {
    TextTyped(fields, "first_name", u.firstName);
    TextTyped(fields, "last_name", u.lastName);
    TextTyped(fields, "id_number", u.idNumber);
    TextTyped(fields, "gender", u.gender);
    NumberTyped(fields, "age", u.age);
    TextTyped(fields, "hmo", u.hmo);
    TextTyped(fields, "card_number", u.cardNumber);
    TextTyped(fields, "tier", u.tier);
    BuildWhole(u);
  }

  /** An integer entry under `k` reads back as that number. */
  lemma NumberTyped(fields: seq<Field>, k: string, x: int)
    requires Lookup(fields, k, Null) == Int(x)
    ensures NumberAt(fields, k) == Some(x)
  {
  }

  /** Eight present fields give the record they spell exactly when it is valid. */
  lemma BuildWhole(u: UserInfo)
    ensures Build(Some(u.firstName), Some(u.lastName), Some(u.idNumber), Some(u.gender),
                  Some(u.age), Some(u.hmo), Some(u.cardNumber), Some(u.tier))
         == if Valid(u) then Some(u) else None
  {
  }

  /** A string entry under `k` reads back as that text. */
  lemma TextTyped(fields: seq<Field>, k: string, x: string)
    requires Lookup(fields, k, Null) == Str(x)
    ensures TextAt(fields, k) == Some(x)
  {
  }

  /** Entries under names the record does not have change nothing. */
  lemma ExtraKeysIgnored(fields: seq<Field>, extra: seq<Field>)
    requires forall j :: 0 <= j < |extra| ==> extra[j].key !in RequiredKeys
    ensures FromJson(fields + extra) == FromJson(fields)
  {
    forall k | k in RequiredKeys
      ensures Lookup(fields + extra, k, Null) == Lookup(fields, k, Null)
    {
      LookupAppend(fields, extra, k, Null);
      assert !HasKey(extra, k);
    }
    FromJsonByLookups(fields + extra, fields);
  }
}
