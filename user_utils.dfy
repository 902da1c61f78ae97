/** The client-side user id helpers of src/utils/userUtils.ts: the id cache in the browser's
    key-value store (`getUserId`, `regenerateUserId`, `clearUserId`), the short form, and the two
    id formats, a version-4 UUID (section 4.4 of RFC 4122) and the `animal-NNNN` zodiac id.
    The two format checks are case-insensitive anchored regular expressions; they are modelled
    by a small matcher over the pattern's pieces and proved equal to a plain description. */
module UserUtils {
  import opened Wrappers
  import opened Js

  // ---------------------------------------------------------------------------
  // Anchored case-insensitive patterns

  /** A piece of a pattern: `[chars]{count}`, or an alternation of words `(w1|w2|...)`.
      Pattern characters are lower-case, so matching under the `i` flag compares the subject's
      ASCII-lowered characters; outside ASCII the flag maps nothing onto an ASCII letter. */
  datatype Piece = Class(chars: string, count: nat) | Words(words: seq<string>)

  /** A pattern: its pieces in order. */
  datatype Pattern = End | Then(head: Piece, tail: Pattern)

  /** `/^pattern$/i.test(s)`. */
  predicate MatchesI(p: Pattern, s: string) {
    match p
    case End => s == []
    case Then(Class(cs, n), tail) =>
      n <= |s| && (forall i :: 0 <= i < n ==> LowerChar(s[i]) in cs) && MatchesI(tail, s[n..])
    case Then(Words(ws), tail) =>
      exists k :: 0 <= k < |ws| && |ws[k]| <= |s| && ToLowerAscii(s[..|ws[k]|]) == ws[k] && MatchesI(tail, s[|ws[k]|..])
  }

  predicate ClassesOnly(p: Pattern) {
    p.Then? ==> p.head.Class? && ClassesOnly(p.tail)
  }

  /** The number of characters a pattern of classes matches. */
  function Width(p: Pattern): nat
    requires ClassesOnly(p)
  {
    if p.End? then 0 else p.head.count + Width(p.tail)
  }

  /** The class that position `i` of a match must fall in. */
  function ClassAt(p: Pattern, i: nat): string
    requires ClassesOnly(p) && i < Width(p)
  {
    if i < p.head.count then p.head.chars else ClassAt(p.tail, i - p.head.count)
  }

  /** A pattern made only of classes matches exactly the strings of its width whose every
      character falls in the class for its position. */
  lemma {:induction false} MatchesClasses(p: Pattern, s: string)
    requires ClassesOnly(p)
    ensures MatchesI(p, s) <==> |s| == Width(p) && forall i :: 0 <= i < |s| ==> LowerChar(s[i]) in ClassAt(p, i)
  {
    if p.Then? {
      var n := p.head.count;
      if n <= |s| {
        MatchesClasses(p.tail, s[n..]);
        if |s| == Width(p) && forall i :: 0 <= i < |s| ==> LowerChar(s[i]) in ClassAt(p, i) {
          forall i | 0 <= i < |s[n..]| ensures LowerChar(s[n..][i]) in ClassAt(p.tail, i) {
            assert ClassAt(p, i + n) == ClassAt(p.tail, i);
          }
        }
        if MatchesI(p, s) {
          forall i | 0 <= i < |s| ensures LowerChar(s[i]) in ClassAt(p, i) {
            if i >= n { assert s[i] == s[n..][i - n]; }
          }
        }
      }
    }
  }

  const HexDigits: string := "0123456789abcdef"
  const Digits: string := "0123456789"

  // ---------------------------------------------------------------------------
  // UUID

  /** `/^[0-9a-f]{8}-[0-9a-f]{4}-4[0-9a-f]{3}-[89ab][0-9a-f]{3}-[0-9a-f]{12}$/i`, built from its
      last piece backwards. */
  const Uuid10: Pattern := Then(Class(HexDigits, 12), End)
  const Uuid9: Pattern := Then(Class("-", 1), Uuid10)
  const Uuid8: Pattern := Then(Class(HexDigits, 3), Uuid9)
  const Uuid7: Pattern := Then(Class("89ab", 1), Uuid8)
  const Uuid6: Pattern := Then(Class("-", 1), Uuid7)
  const Uuid5: Pattern := Then(Class(HexDigits, 3), Uuid6)
  const Uuid4: Pattern := Then(Class("4", 1), Uuid5)
  const Uuid3: Pattern := Then(Class("-", 1), Uuid4)
  const Uuid2: Pattern := Then(Class(HexDigits, 4), Uuid3)
  const Uuid1: Pattern := Then(Class("-", 1), Uuid2)
  const UuidPattern: Pattern := Then(Class(HexDigits, 8), Uuid1)

  /** `isValidUUID`. */
  predicate IsValidUuid(s: string) {
    MatchesI(UuidPattern, s)
  }

  /** The 8-4-4-4-12 layout: hyphens at 8, 13, 18 and 23, the version nibble `4` at 14, the
      variant nibble 8, 9, a or b at 19, and a hexadecimal digit of either case everywhere else. */
  function UuidClass(i: nat): string {
    if i == 8 || i == 13 || i == 18 || i == 23 then "-"
    else if i == 14 then "4"
    else if i == 19 then "89ab"
    else HexDigits
  }

  predicate UuidLayout(s: string) {
    |s| == 36 && forall i :: 0 <= i < 36 ==> LowerChar(s[i]) in UuidClass(i)
  }

  lemma UuidWidth()
    ensures ClassesOnly(UuidPattern) && Width(UuidPattern) == 36
  {
    assert Width(Uuid10) == 12;
    assert Width(Uuid9) == 13;
    assert Width(Uuid8) == 16;
    assert Width(Uuid7) == 17;
    assert Width(Uuid6) == 18;
    assert Width(Uuid5) == 21;
    assert Width(Uuid4) == 22;
    assert Width(Uuid3) == 23;
    assert Width(Uuid2) == 27;
    assert Width(Uuid1) == 28;
  }

  /** Position `i` of a match falls in the class the layout gives it. */
  lemma UuidClassAt(i: nat)
    requires i < 36
    ensures ClassesOnly(UuidPattern) && Width(UuidPattern) == 36 && ClassAt(UuidPattern, i) == UuidClass(i)
  {
    UuidWidth();
    if i >= 8 {
      assert ClassAt(UuidPattern, i) == ClassAt(Uuid1, i - 8);
      if i >= 9 {
        assert ClassAt(Uuid1, i - 8) == ClassAt(Uuid2, i - 9);
        if i >= 13 {
          assert ClassAt(Uuid2, i - 9) == ClassAt(Uuid3, i - 13);
          if i >= 14 {
            assert ClassAt(Uuid3, i - 13) == ClassAt(Uuid4, i - 14);
            if i >= 15 {
              assert ClassAt(Uuid4, i - 14) == ClassAt(Uuid5, i - 15);
              if i >= 18 {
                assert ClassAt(Uuid5, i - 15) == ClassAt(Uuid6, i - 18);
                if i >= 19 {
                  assert ClassAt(Uuid6, i - 18) == ClassAt(Uuid7, i - 19);
                  if i >= 20 {
                    assert ClassAt(Uuid7, i - 19) == ClassAt(Uuid8, i - 20);
                    if i >= 23 {
                      assert ClassAt(Uuid8, i - 20) == ClassAt(Uuid9, i - 23);
                      if i >= 24 {
                        assert ClassAt(Uuid9, i - 23) == ClassAt(Uuid10, i - 24);
                      }
                    }
                  }
                }
              }
            }
          }
        }
      }
    }
  }

  /** `isValidUUID` accepts exactly the version-4 layout, in either letter case. */
  lemma IsValidUuidIff(s: string)
    ensures IsValidUuid(s) <==> UuidLayout(s)
  {
    UuidClassAt(0);
    MatchesClasses(UuidPattern, s);
    forall i | 0 <= i < 36 ensures ClassAt(UuidPattern, i) == UuidClass(i) { UuidClassAt(i); }
  }

  // ---------------------------------------------------------------------------
  // Zodiac id

  /** The alternation of the zodiac pattern. */
  const ZodiacWords: seq<string> :=
    ["rat", "ox", "tiger", "rabbit", "dragon", "snake", "horse", "sheep", "monkey", "rooster", "dog", "pig"]

  /** The part after the animal name: `-\d{4}`. */
  const ZodiacTail: Pattern := Then(Class("-", 1), Then(Class(Digits, 4), End))

  /** `/^(rat|ox|...|pig)-\d{4}$/i`. */
  const ZodiacPattern: Pattern := Then(Words(ZodiacWords), ZodiacTail)

  /** `isValidZodiacId`. */
  predicate IsValidZodiacId(s: string) {
    MatchesI(ZodiacPattern, s)
  }

  /** An animal name in any letter case, a hyphen, then exactly four ASCII digits. */
  predicate ZodiacLayout(s: string, k: int) {
    0 <= k < |ZodiacWords| && |s| == |ZodiacWords[k]| + 5
    && ToLowerAscii(s[..|ZodiacWords[k]|]) == ZodiacWords[k]
    && s[|ZodiacWords[k]|] == '-' && AllDigits(s[|ZodiacWords[k]| + 1..])
  }

  lemma LowerDigit(c: char)
    ensures LowerChar(c) in Digits <==> IsDigit(c)
  {
    if IsDigit(c) {
      assert Digits[c as int - '0' as int] == c;
    }
  }

  /** The tail pattern is five characters wide: a dash, then four digits. */
  lemma ZodiacTailClasses()
    ensures ClassesOnly(ZodiacTail) && Width(ZodiacTail) == 5
    ensures forall i :: 0 <= i < 5 ==> ClassAt(ZodiacTail, i) == if i == 0 then "-" else Digits
  {
    forall i | 1 <= i < 5 ensures ClassAt(ZodiacTail, i) == Digits {
      assert ClassAt(ZodiacTail, i) == ClassAt(ZodiacTail.tail, i - 1);
    }
  }

  /** Five characters that lower into the dash and the digit classes are a dash and four digits. */
  lemma DashDigits(t: string)
    requires |t| == 5
    ensures (forall i :: 0 <= i < 5 ==> LowerChar(t[i]) in if i == 0 then "-" else Digits)
      <==> t[0] == '-' && AllDigits(t[1..])
  {
    assert LowerChar(t[0]) in "-" <==> t[0] == '-';
    forall i | 1 <= i < 5 ensures LowerChar(t[i]) in Digits <==> IsDigit(t[1..][i - 1]) {
      LowerDigit(t[i]);
    }
  }

  lemma ZodiacTailIff(t: string)
    ensures MatchesI(ZodiacTail, t) <==> |t| == 5 && t[0] == '-' && AllDigits(t[1..])
  {
    ZodiacTailClasses();
    MatchesClasses(ZodiacTail, t);
    if |t| == 5 {
      DashDigits(t);
    }
  }

  /** `isValidZodiacId` accepts exactly one of the twelve animal names in any case, a hyphen, and
      four digits. */
  lemma IsValidZodiacIdIff(s: string)
    ensures IsValidZodiacId(s) <==> exists k :: ZodiacLayout(s, k)
  {
    forall k | 0 <= k < |ZodiacWords| && |ZodiacWords[k]| <= |s|
      ensures MatchesI(ZodiacTail, s[|ZodiacWords[k]|..]) <==>
        |s| == |ZodiacWords[k]| + 5 && s[|ZodiacWords[k]|] == '-' && AllDigits(s[|ZodiacWords[k]| + 1..])
    {
      var n := |ZodiacWords[k]|;
      ZodiacTailIff(s[n..]);
      if |s| > n { assert s[n..][1..] == s[n + 1..]; }
    }
    if IsValidZodiacId(s) {
      var k :| 0 <= k < |ZodiacWords| && |ZodiacWords[k]| <= |s| && ToLowerAscii(s[..|ZodiacWords[k]|]) == ZodiacWords[k]
        && MatchesI(ZodiacTail, s[|ZodiacWords[k]|..]);
      assert ZodiacLayout(s, k);
    }
    if k :| ZodiacLayout(s, k) {
      assert MatchesI(ZodiacTail, s[|ZodiacWords[k]|..]);
    }
  }

  /** `isValidUserId`. */
  predicate IsValidUserId(s: string) {
    IsValidUuid(s) || IsValidZodiacId(s)
  }

  /** The two formats never overlap: a UUID is 36 characters, a zodiac id at most 12. */
  lemma FormatsDisjoint(s: string)
    ensures !(IsValidUuid(s) && IsValidZodiacId(s))
  {
    IsValidUuidIff(s);
    IsValidZodiacIdIff(s);
  }

  /** `isValidUserId` accepts exactly the strings of the UUID layout and the strings of the zodiac
      layout, and a valid id is of exactly one of the two. */
  lemma IsValidUserIdIff(s: string)
    ensures IsValidUserId(s) <==> UuidLayout(s) || exists k :: ZodiacLayout(s, k)
    ensures IsValidUserId(s) ==> (UuidLayout(s) <==> !exists k :: ZodiacLayout(s, k))
  {
    IsValidUuidIff(s);
    IsValidZodiacIdIff(s);
    FormatsDisjoint(s);
  }

  // ---------------------------------------------------------------------------
  // Short form

  /** `getShortUserId(userId?)`: the first 8 characters of a non-empty id, `'unknown'` otherwise. */
  function ShortUserId(userId: Option<string>): (r: string)
    ensures userId.Some? && userId.value != [] ==>
      |r| == if |userId.value| < 8 then |userId.value| else 8
    ensures userId.Some? && userId.value != [] ==> StartsWith(userId.value, r)
    ensures userId.None? || userId.value == [] ==> r == "unknown"
  {
    if userId.Some? && userId.value != [] then Prefix(userId.value, 8) else "unknown"
  }

  // ---------------------------------------------------------------------------
  // The cached id

  /** `USER_ID_KEY`. */
  const UserIdKey: string := "voicememo_user_id"

  /** What `fetch('/api/user-id/generate', {method: 'POST'})` and `response.json()` produce. */
  datatype GenerateReply =
    | FetchThrows(error: Thrown)       // the request itself fails
    | NotOk                            // `!response.ok`
    | JsonThrows(error: Thrown)        // the body is not JSON
    | Replied(result: Json)            // the parsed body

  /** The id a server reply hands out: `result.data.userId`, of whatever type, when it and
      `result.success` are both truthy. */
  function ReplyUserId(result: Json): (r: Option<Json>)
    ensures r.Some? <==>
      result.JObj? && "success" in result.fields && Truthy(result.fields["success"])
      && "data" in result.fields && result.fields["data"].JObj?
      && "userId" in result.fields["data"].fields && Truthy(result.fields["data"].fields["userId"])
    ensures r.Some? ==> r.value == result.fields["data"].fields["userId"]
  {
    match Get(result, "success")
    case Failure(_) => None
    case Success(success) =>
      if !TruthyOpt(success) then None
      else match Get(result, "data")
        case Failure(_) => None
        case Success(data) =>
          match GetOpt(data, "userId")
          case Success(Some(id)) => if Truthy(id) then Some(id) else None
          case _ => None
  }

  /** The fallback id of the `catch` blocks: `temp_<now>_<random>`. */
  function TempId(now: nat, random: string): (r: string)
    ensures StartsWith(r, "temp_")
  {
    "temp_" + NatToString(now) + "_" + random
  }

  /** The outcome of `getUserId`: the value returned (the server's id keeps its JSON type), and
      the text the store holds under the key afterwards. */
  datatype Fetched = Fetched(id: Json, stored: Option<string>)

  /** `getUserId` as a function of the stored value, the presence of `window`, the server reply,
      the clock and the random suffix. */
  function GetUserIdSpec(stored: Option<string>, hasWindow: bool, reply: GenerateReply, now: nat, random: string): (f: Fetched)
    ensures !hasWindow ==> f == Fetched(JStr("temp_user_id"), stored)
    ensures hasWindow && stored.Some? && stored.value != [] ==> f == Fetched(JStr(stored.value), stored)
    ensures hasWindow && (stored.None? || stored.value == []) ==>
      (reply.Replied? && ReplyUserId(reply.result).Some? ==> f.id == ReplyUserId(reply.result).value && f.stored == Some(JsString(f.id)))
      && (!(reply.Replied? && ReplyUserId(reply.result).Some?) ==> f == Fetched(JStr(TempId(now, random)), stored))
  {
    if !hasWindow then Fetched(JStr("temp_user_id"), stored)
    else if stored.Some? && stored.value != [] then Fetched(JStr(stored.value), stored)
    else if reply.Replied? && ReplyUserId(reply.result).Some? then
      var id := ReplyUserId(reply.result).value;
      Fetched(id, Some(JsString(id)))
    else Fetched(JStr(TempId(now, random)), stored)
  }

  /** Whatever happens, `getUserId` answers with a cached id, a server id that is now cached, or
      a temporary id, and it stores nothing but the server id. */
  lemma GetUserIdOutcomes(stored: Option<string>, hasWindow: bool, reply: GenerateReply, now: nat, random: string)
    ensures var f := GetUserIdSpec(stored, hasWindow, reply, now, random);
      (f.stored == stored && f.id.JStr? && (f.id.s == "temp_user_id" || StartsWith(f.id.s, "temp_") || Some(f.id.s) == stored))
      || (f.stored == Some(JsString(f.id)) && Truthy(f.id) && reply.Replied? && Some(f.id) == ReplyUserId(reply.result))
  {
  }

  /** A reply without a truthy `success`, or without a truthy `data.userId`, leads to a temporary
      id and leaves the store alone. */
  lemma FailedReplyStoresNothing(result: Json, now: nat, random: string)
    requires ReplyUserId(result).None?
    ensures GetUserIdSpec(None, true, Replied(result), now, random) == Fetched(JStr(TempId(now, random)), None)
  {
  }

  /** A numeric id from the server is returned as the number and cached as its decimal text. */
  lemma NumericIdCachedAsText(now: nat, random: string)
    ensures var reply := Replied(JObj(map["success" := JBool(true), "data" := JObj(map["userId" := JNum(42)])]));
      GetUserIdSpec(None, true, reply, now, random) == Fetched(JNum(42), Some("42"))
  {
    var result := JObj(map["success" := JBool(true), "data" := JObj(map["userId" := JNum(42)])]);
    assert ReplyUserId(result) == Some(JNum(42));
    assert DigitChar(4) == '4' && DigitChar(2) == '2';
    assert NatToString(42) == NatToString(4) + [DigitChar(2)] == "42";
  }

  /** Once a server id is cached, the next call returns its cached text as a string without asking
      the server: a string id comes back unchanged. (An id whose text is empty, such as `[]`, is
      not a cache hit and is asked for again.) */
  lemma CachedServerIdReadsBack(reply: GenerateReply, now: nat, random: string, later: GenerateReply, now2: nat, random2: string)
    requires reply.Replied? && ReplyUserId(reply.result).Some? && JsString(ReplyUserId(reply.result).value) != []
    ensures var f := GetUserIdSpec(None, true, reply, now, random);
      var g := GetUserIdSpec(f.stored, true, later, now2, random2);
      g == Fetched(JStr(JsString(f.id)), f.stored) && (f.id.JStr? ==> g.id == f.id)
  {
  }

  /** The browser's key-value store as far as these helpers use it. */
  class UserIdStore {
    var hasWindow: bool
    var storage: map<string, string>

    constructor (hasWindow: bool, storage: map<string, string>)
      ensures this.hasWindow == hasWindow && this.storage == storage
    {
      this.hasWindow := hasWindow;
      this.storage := storage;
    }

    function Stored(): Option<string>
      reads this
    {
      if UserIdKey in storage then Some(storage[UserIdKey]) else None
    }

    /** `getUserId`. */
    method GetUserId(reply: GenerateReply, now: nat, random: string) returns (id: Json)
      modifies this
      ensures var f := GetUserIdSpec(old(Stored()), hasWindow, reply, now, random);
        id == f.id && Stored() == f.stored
      ensures hasWindow == old(hasWindow)
      ensures forall k :: k != UserIdKey ==> (k in storage <==> k in old(storage)) && (k in storage ==> storage[k] == old(storage)[k])
    {
      if !hasWindow {
        return JStr("temp_user_id");
      }
      if UserIdKey in storage && storage[UserIdKey] != [] {
        return JStr(storage[UserIdKey]);
      }
      if reply.Replied? {
        var newId := ReplyUserId(reply.result);
        if newId.Some? {
          storage := storage[UserIdKey := JsString(newId.value)];
          return newId.value;
        }
      }
      id := JStr(TempId(now, random));
    }

    /** `regenerateUserId`: forget the cached id, then ask for a new one. */
    method RegenerateUserId(reply: GenerateReply, now: nat, random: string) returns (id: Json)
      modifies this
      ensures !old(hasWindow) ==> id == JStr("temp_user_id") && storage == old(storage)
      ensures old(hasWindow) ==>
        var f := GetUserIdSpec(None, true, reply, now, random);
        id == f.id && Stored() == f.stored
      ensures forall k :: k != UserIdKey ==> (k in storage <==> k in old(storage)) && (k in storage ==> storage[k] == old(storage)[k])
    {
      if !hasWindow {
        return JStr("temp_user_id");
      }
      storage := storage - {UserIdKey};
      id := GetUserId(reply, now, random);
    }

    /** `clearUserId`. */
    method ClearUserId()
      modifies this
      ensures hasWindow ==> storage == old(storage) - {UserIdKey}
      ensures !hasWindow ==> storage == old(storage)
      ensures hasWindow == old(hasWindow)
    {
      if hasWindow {
        storage := storage - {UserIdKey};
      }
    }
  }

  /** `regenerateUserId` never hands back the old cached id: what it returns came from the server
      reply or is a temporary id. */
  lemma RegenerateIgnoresCache(reply: GenerateReply, now: nat, random: string)
    ensures var f := GetUserIdSpec(None, true, reply, now, random);
      (f.id.JStr? && StartsWith(f.id.s, "temp_")) || (reply.Replied? && Some(f.id) == ReplyUserId(reply.result))
  {
  }
}
