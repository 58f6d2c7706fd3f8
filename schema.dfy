/**
 The validation rules of the contact schema: `name` required, `number` required
 and accepted by the phone validator, `resourceId` required and unique.
 */
module Schema {
  import opened Records

  predicate IsDigit(c: char)
  {
    '0' <= c <= '9'
  }

  /** The pattern `\d{3}-\d{3}-\d{4}` matches `s` at position `i`. */
  predicate PhoneAt(s: string, i: int)
  {
    0 <= i && i + 12 <= |s| &&
    IsDigit(s[i]) && IsDigit(s[i + 1]) && IsDigit(s[i + 2]) && s[i + 3] == '-' &&
    IsDigit(s[i + 4]) && IsDigit(s[i + 5]) && IsDigit(s[i + 6]) && s[i + 7] == '-' &&
    IsDigit(s[i + 8]) && IsDigit(s[i + 9]) && IsDigit(s[i + 10]) && IsDigit(s[i + 11])
  }

  /** The schema's phone validator: the regular expression is not anchored, so it
      accepts any string that contains a match somewhere. */
  function PhoneValidator(num: string): (ok: bool)
    ensures ok <==> exists i :: PhoneAt(num, i)
  {
    MatchFrom(num, 0)
  }

  /** The regular-expression search, trying each start position from `from` on. */
  function MatchFrom(num: string, from: nat): (ok: bool)
    requires from <= |num|
    decreases |num| - from
    ensures ok <==> exists i :: from <= i && PhoneAt(num, i)
  {
    if from + 12 > |num| then false
    else PhoneAt(num, from) || MatchFrom(num, from + 1)
  }

  /** A string passes Mongoose's `required` check: it is neither absent nor empty. */
  predicate Present(s: Option<string>)
  {
    s.Some? && |s.value| > 0
  }

  datatype Path = NamePath | NumberPath | ResourceIdPath

  /** The schema paths whose validators reject `c`; a record passes validation
      when, and only when, every rule of the schema holds. */
  function Validate(c: Contact): (failed: set<Path>)
    ensures failed == {} <==>
              Present(c.name) && Present(c.number) && PhoneValidator(c.number.value) && c.resourceId.Some?
    ensures NamePath in failed <==> !Present(c.name)
    ensures NumberPath in failed <==> !(Present(c.number) && PhoneValidator(c.number.value))
    ensures ResourceIdPath in failed <==> c.resourceId.None?
  {
    (if Present(c.name) then {} else {NamePath}) +
    (if Present(c.number) && PhoneValidator(c.number.value) then {} else {NumberPath}) +
    (if c.resourceId.Some? then {} else {ResourceIdPath})
  }

  predicate ValidRecord(c: Contact)
  {
    Validate(c) == {}
  }

  /** The unique index on `resourceId`, and the uniqueness of the store identity. */
  predicate Unique(store: seq<Contact>)
  {
    forall i, j :: 0 <= i < j < |store| ==>
      store[i].resourceId != store[j].resourceId && store[i].key != store[j].key
  }

  /** What the schema guarantees of every collection it guards. */
  predicate StoreOk(store: seq<Contact>)
  {
    (forall i :: 0 <= i < |store| ==> ValidRecord(store[i])) && Unique(store)
  }

  lemma StoreOkIdsPresent(store: seq<Contact>)
    requires StoreOk(store)
    ensures IdsPresent(store)
  {
    forall k | 0 <= k < |store| ensures store[k].resourceId.Some? {
      assert ValidRecord(store[k]);
    }
  }

  /** The validator is unanchored: text around a phone number does not matter. */
  lemma {:induction false} PhoneValidatorUnanchored(prefix: string, s: string, suffix: string)
    requires PhoneValidator(s)
    ensures PhoneValidator(prefix + s + suffix)
  {
    var i :| PhoneAt(s, i);
    var t := prefix + s + suffix;
    forall j | |prefix| <= j < |prefix| + |s| ensures t[j] == s[j - |prefix|] {
      assert t == prefix + (s + suffix);
    }
    assert PhoneAt(t, |prefix| + i);
  }

  /** On a string of exactly twelve characters the validator is the anchored pattern. */
  lemma PhoneValidatorTwelve(s: string)
    requires |s| == 12
    ensures PhoneValidator(s) <==> PhoneAt(s, 0)
  {
    if PhoneValidator(s) {
      var i :| PhoneAt(s, i);
      assert i == 0;
    }
  }

  /** Concrete cases: the plain number, a number with surrounding text, and two near misses. */
  lemma PhoneValidatorExamples()
    ensures PhoneValidator("555-123-4567")
    ensures PhoneValidator("tel 555-123-4567 ext 9")
    ensures !PhoneValidator("555-1234-567")
    ensures !PhoneValidator("5551234567")
  {
    assert PhoneAt("555-123-4567", 0);
    PhoneValidatorUnanchored("tel ", "555-123-4567", " ext 9");
    assert "tel " + "555-123-4567" + " ext 9" == "tel 555-123-4567 ext 9";
    PhoneValidatorTwelve("555-1234-567");
  }
}
