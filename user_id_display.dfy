/** The display policy of src/policies/userIdDisplayPolicy.ts: a legacy UUID shows its first
    eight characters, a zodiac id shows in full, anything else shows its first eight characters,
    and an empty id shows as `unknown`. */
module UserIdDisplay {
  import opened Js
  import opened UserUtils

  /** `getDisplayUserId`. */
  function DisplayUserId(userId: string): (r: string)
    ensures userId == [] ==> r == "unknown"
    ensures userId != [] && IsValidUuid(userId) ==> |r| == 8 && r == userId[..8]
    ensures userId != [] && !IsValidUuid(userId) && IsValidZodiacId(userId) ==> r == userId
    ensures userId != [] && !IsValidUuid(userId) && !IsValidZodiacId(userId) ==> r == Prefix(userId, 8)
  {
    if userId == [] then "unknown"
    else if IsValidUuid(userId) then (IsValidUuidIff(userId); userId[..8])
    else if IsValidZodiacId(userId) then userId
    else Prefix(userId, 8)
  }

  /** `isLegacyUserId`. */
  predicate IsLegacyUserId(userId: string) {
    IsValidUuid(userId)
  }

  /** `isNewFormatUserId`. */
  predicate IsNewFormatUserId(userId: string) {
    IsValidZodiacId(userId)
  }

  datatype UserIdType = Legacy | Zodiac | Unknown

  /** `getUserIdType`: the UUID test comes first. */
  function GetUserIdType(userId: string): UserIdType {
    if IsValidUuid(userId) then Legacy
    else if IsValidZodiacId(userId) then Zodiac
    else Unknown
  }

  /** The type agrees with both predicates: `legacy` exactly for legacy ids, `zodiac` exactly for
      new-format ids, `unknown` exactly for ids that are neither. */
  lemma UserIdTypeAgrees(userId: string)
    ensures GetUserIdType(userId) == Legacy <==> IsLegacyUserId(userId)
    ensures GetUserIdType(userId) == Zodiac <==> IsNewFormatUserId(userId)
    ensures GetUserIdType(userId) == Unknown <==> !IsLegacyUserId(userId) && !IsNewFormatUserId(userId)
  {
    FormatsDisjoint(userId);
  }

  /** The displayed form follows the type: a legacy id is cut, a zodiac id kept, the rest cut. */
  lemma DisplayFollowsType(userId: string)
    requires userId != []
    ensures GetUserIdType(userId) == Zodiac ==> DisplayUserId(userId) == userId
    ensures GetUserIdType(userId) != Zodiac ==> DisplayUserId(userId) == Prefix(userId, 8)
  {
    if IsValidUuid(userId) { IsValidUuidIff(userId); }
  }

  /** A non-empty id of at most eight characters displays as itself; `unknown` is one. */
  lemma ShortIdDisplaysAsItself(userId: string)
    requires userId != [] && |userId| <= 8
    ensures DisplayUserId(userId) == userId
  {
    IsValidUuidIff(userId);
  }

  /** Displaying a displayed id changes nothing, for every id including the empty one. */
  lemma DisplayIdempotent(userId: string)
    ensures DisplayUserId(DisplayUserId(userId)) == DisplayUserId(userId)
  {
    var r := DisplayUserId(userId);
    if userId == [] || IsValidUuid(userId) || !IsValidZodiacId(userId) {
      ShortIdDisplaysAsItself(r);
    }
  }

  /** A displayed id is never longer than twelve characters, the length of the longest zodiac id. */
  lemma DisplayLength(userId: string)
    ensures |DisplayUserId(userId)| <= 12
  {
    if userId != [] && !IsValidUuid(userId) && IsValidZodiacId(userId) {
      IsValidZodiacIdIff(userId);
      var k :| ZodiacLayout(userId, k);
      assert |ZodiacWords[k]| <= 7;
    }
  }
}
