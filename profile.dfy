/** The dashboard's profile-completion figures: the percentage of the eight
    profile items that are filled in, and whether the core fields are set. */
module Profile {
  import opened Wrappers

  /** A JavaScript value as far as truthiness is concerned. */
  datatype JsValue = Undefined | Null | Bool(b: bool) | Number(n: real) | NaN | Str(s: string) | Object

  /** JavaScript truthiness: false, 0, NaN, "", null and undefined are falsy. */
  predicate Truthy(v: JsValue) {
    match v
    case Undefined => false
    case Null => false
    case Bool(b) => b
    case Number(n) => n != 0.0
    case NaN => false
    case Str(s) => s != ""
    case Object => true
  }

  /** The signed-in user as an object: a missing property reads as undefined. */
  type User = map<string, JsValue>

  function Get(user: User, field: string): JsValue {
    if field in user then user[field] else Undefined
  }

  const ProfileFields: seq<string> := ["name", "dateOfBirth", "gender", "height", "weight", "bloodType", "ethnicity"]

  /** The number of the given fields that are truthy in user. */
  function CountTruthy(user: User, fields: seq<string>): (n: nat)
    ensures n <= |fields|
  {
    if fields == [] then 0
    else CountTruthy(user, fields[..|fields| - 1]) + (if Truthy(Get(user, fields[|fields| - 1])) then 1 else 0)
  }

  /** The profile items filled in: the truthy named fields of the user (none
      without a user) and one more when at least one family member is recorded. */
  function Filled(user: Option<User>, familyCount: int): (n: nat)
    ensures n <= |ProfileFields| + 1
  {
    (if user.Some? then CountTruthy(user.value, ProfileFields) else 0) + (if familyCount > 0 then 1 else 0)
  }

  /** `Math.round(num / den)`: the nearest integer, halves rounded up. */
  function RoundHalfUp(num: int, den: nat): (r: int)
    requires den > 0
    ensures 2 * den * r <= 2 * num + den < 2 * den * (r + 1)
  {
    (2 * num + den) / (2 * den)
  }

  /** `computeProfilePercent`: the loop counts the truthy fields, then the
      fraction filled / 8 is scaled to a rounded percentage. */
  method ComputeProfilePercent(user: Option<User>, familyCount: int) returns (percent: int)
    ensures percent == RoundHalfUp(100 * Filled(user, familyCount), |ProfileFields| + 1)
    ensures percent == (25 * Filled(user, familyCount) + 1) / 2
    ensures 0 <= percent <= 100
  {
    var fields := ProfileFields;
    var filled := 0;
    if user.Some? {
      for k := 0 to |fields|
        invariant filled == CountTruthy(user.value, fields[..k])
      {
        if Truthy(Get(user.value, fields[k])) {
          filled := filled + 1;
        }
        assert fields[..k + 1][..k] == fields[..k];
      }
      assert fields[..|fields|] == fields;
    }
    if familyCount > 0 {
      filled := filled + 1;
    }
    percent := RoundHalfUp(filled * 100, |fields| + 1);
    PercentClosedForm(filled);
  }

  /** Rounding filled / 8 * 100 gives (25 * filled + 1) / 2, which stays within 0..100. */
  lemma PercentClosedForm(filled: nat)
    requires filled <= 8
    ensures RoundHalfUp(100 * filled, 8) == (25 * filled + 1) / 2
    ensures 0 <= (25 * filled + 1) / 2 <= 100
  {
    assert (2 * (100 * filled) + 8) / 16 == (25 * filled + 1) / 2;
  }

  /** The percentage grows with the number of items filled in. */
  lemma PercentMonotone(f1: nat, f2: nat)
    requires f1 <= f2 <= 8
    ensures RoundHalfUp(100 * f1, 8) <= RoundHalfUp(100 * f2, 8)
  {
    PercentClosedForm(f1);
    PercentClosedForm(f2);
  }

  /** With no user and no family members the percentage is 0. */
  lemma NothingFilledIsZero()
    ensures RoundHalfUp(100 * Filled(None, 0), |ProfileFields| + 1) == 0
  {
  }

  /** With every field truthy and a family member recorded the percentage is 100. */
  lemma EverythingFilledIsHundred(user: User, familyCount: int)
    requires forall k :: 0 <= k < |ProfileFields| ==> Truthy(Get(user, ProfileFields[k]))
    requires familyCount > 0
    ensures RoundHalfUp(100 * Filled(Some(user), familyCount), |ProfileFields| + 1) == 100
  {
    AllTruthy(user, ProfileFields);
  }

  lemma {:induction false} AllTruthy(user: User, fields: seq<string>)
    requires forall k :: 0 <= k < |fields| ==> Truthy(Get(user, fields[k]))
    ensures CountTruthy(user, fields) == |fields|
  {
    if fields != [] {
      AllTruthy(user, fields[..|fields| - 1]);
    }
  }

  /** `isProfileComplete`: a user with a truthy name, date of birth, gender,
      height and weight. */
  predicate IsProfileComplete(user: Option<User>) {
    user.Some? &&
    Truthy(Get(user.value, "name")) && Truthy(Get(user.value, "dateOfBirth")) &&
    Truthy(Get(user.value, "gender")) && Truthy(Get(user.value, "height")) &&
    Truthy(Get(user.value, "weight"))
  }

  /** Completeness does not look at the blood type or the ethnicity. */
  lemma CompletenessIgnoresOptionalFields(u: User, bloodType: JsValue, ethnicity: JsValue)
    ensures IsProfileComplete(Some(u)) == IsProfileComplete(Some(u["bloodType" := bloodType]["ethnicity" := ethnicity]))
  {
  }

  /** A complete profile has at least five of the eight items, so at least 63 percent. */
  lemma CompleteProfileAtLeast63(user: User, familyCount: int)
    requires IsProfileComplete(Some(user))
    ensures Filled(Some(user), familyCount) >= 5
    ensures RoundHalfUp(100 * Filled(Some(user), familyCount), |ProfileFields| + 1) >= 63
  {
    var f := ProfileFields;
    var core: seq<string> := ["name", "dateOfBirth", "gender", "height", "weight"];
    assert f[..5] == core;
    CorePrefix(user, core, 5);
    assert core[..5] == core;
    CountTruthyGrows(user, f[..5], f[5..]);
    assert f[..5] + f[5..] == f;
    PercentMonotone(5, Filled(Some(user), familyCount));
    PercentClosedForm(5);
  }

  lemma {:induction false} CorePrefix(user: User, core: seq<string>, k: nat)
    requires core == ["name", "dateOfBirth", "gender", "height", "weight"]
    requires IsProfileComplete(Some(user))
    requires k <= 5
    ensures CountTruthy(user, core[..k]) == k
  {
    if k > 0 {
      CorePrefix(user, core, k - 1);
      assert core[..k][..k - 1] == core[..k - 1];
      assert core[..k][k - 1] in core;
    }
  }

  /** More fields can only add to the count. */
  lemma {:induction false} CountTruthyGrows(user: User, front: seq<string>, back: seq<string>)
    ensures CountTruthy(user, front + back) >= CountTruthy(user, front)
  {
    if back != [] {
      var b := back[..|back| - 1];
      CountTruthyGrows(user, front, b);
      assert (front + back)[..|front + back| - 1] == front + b;
    } else {
      assert front + back == front;
    }
  }
}
