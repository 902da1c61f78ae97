/** The automatic-thought table src/constants/automaticThoughts.ts (the patterns of automatic
    thought used in cognitive behavioural therapy, each with its emotions and core needs) and its
    three lookups: by code, by emotion and by core need. */
module AutomaticThoughts {
  import opened Wrappers
  import opened Lookup

  datatype AutomaticThought = AutomaticThought(
    code: string, labelKo: string, labelEn: string, emotions: seq<string>, coreNeeds: seq<string>)

  // ---------------------------------------------------------------------------
  // AUTOMATIC_THOUGHTS, in four blocks of eight

  const ThoughtsA: seq<AutomaticThought> := [
    AutomaticThought("ABANDONED", "버림받은", "Abandoned",
      ["두렵다", "슬프다", "외롭다"],
      ["소속감", "돌봄"]),
    AutomaticThought("ABUSED", "학대받은", "Abused",
      ["겁나다", "무기력하다", "비참하다"],
      ["보살핌", "신체·정서적 안전", "안정감"]),
    AutomaticThought("UNRECOGNIZED", "인정받지 못한", "Unrecognized",
      ["섭섭하다", "억울하다", "맥 빠지다"],
      ["이해", "유대", "소속", "기억", "공정함"]),
    AutomaticThought("ATTACKED", "공격당한", "Attacked",
      ["겁나다", "위축되다", "격노하다"],
      ["안전", "보호"]),
    AutomaticThought("BETRAYED", "배신당한", "Betrayed",
      ["분하다", "실망하다", "맥 빠지다"],
      ["신뢰", "진정성", "정직", "명확함"]),
    AutomaticThought("BLAMED", "비난받는", "Blamed",
      ["두렵다", "불안하다", "위축되다"],
      ["공정함", "수용", "이해"]),
    AutomaticThought("BULLIED", "왕따당한", "Bullied",
      ["불안하다", "외롭다", "두렵다"],
      ["안전", "존중", "소속감", "수용"]),
    AutomaticThought("CONFINED", "구속당하는", "Confined",
      ["답답하다", "짜증 난다"],
      ["자율성", "자유", "선택"])
  ]

  const ThoughtsB: seq<AutomaticThought> := [
    AutomaticThought("DECEIVED", "속은 듯한", "Deceived",
      ["실망하다", "억울하다", "분하다"],
      ["정직", "공정함", "신뢰"]),
    AutomaticThought("DISLIKED", "싫어하는 것 같은", "Disliked",
      ["외롭다", "슬프다", "서운하다"],
      ["사랑", "인정", "우정", "유대"]),
    AutomaticThought("DISTRUSTED", "의심받은", "Distrusted",
      ["절망스럽다", "억울하다"],
      ["진실", "정직", "신뢰"]),
    AutomaticThought("IGNORED", "무시당한", "Ignored",
      ["서운하다", "분하다", "민망하다"],
      ["소속", "유대", "공동체", "참여"]),
    AutomaticThought("INSULTED", "모욕당한", "Insulted",
      ["화난다", "창피하다", "무기력하다"],
      ["존중", "배려", "존재감"]),
    AutomaticThought("INTERRUPTED", "방해받은", "Interrupted",
      ["짜증 난다", "귀찮다"],
      ["존중", "배려", "이해", "자율성"]),
    AutomaticThought("INTIMIDATED", "위협받는", "Intimidated",
      ["불안하다", "두렵다", "걱정된다"],
      ["안전", "보호", "자율성", "선택"]),
    AutomaticThought("MISUNDERSTOOD", "오해받은", "Misunderstood",
      ["불편하다", "속상하다", "억울하다"],
      ["이해", "명확성"])
  ]

  const ThoughtsC: seq<AutomaticThought> := [
    AutomaticThought("OVERPOWERED", "제압당한", "Overpowered",
      ["무력하다", "당혹스럽다"],
      ["공평함", "정의", "자율성", "자유"]),
    AutomaticThought("EXPLOITED", "착취당한", "Exploited",
      ["화나다", "피곤하다", "좌절하다"],
      ["존중", "배려", "휴식", "보살핌"]),
    AutomaticThought("OVERDEMANDED", "과외요구받는", "Overdemanded",
      ["지쳤다", "무기력하다", "성가시다"],
      ["인정", "공평함", "존중", "성실성"]),
    AutomaticThought("WITH_IRRITABLE_PERSON", "신경질적으로 구는 사람과 있을 때", "With Irritable Person",
      ["짜증 난다", "귀찮다"],
      ["존중", "배려"]),
    AutomaticThought("RESTRAINED", "억제당한", "Restrained",
      ["슬프다", "답답하다", "맥 빠지다"],
      ["존중", "이해", "인정"]),
    AutomaticThought("REJECTED", "거절당한", "Rejected",
      ["실망스럽다", "서운하다"],
      ["소속", "친밀함", "인정"]),
    AutomaticThought("RIPPED_OFF", "바가지 쓴", "Ripped Off",
      ["분하다", "실망스럽다", "걱정된다"],
      ["공정함", "정의", "신뢰", "배려"]),
    AutomaticThought("SUFFOCATED", "숨이 막힐 듯한", "Suffocated",
      ["두렵다", "절박하다"],
      ["여유", "자유", "자율성", "진정성"])
  ]

  const ThoughtsD: seq<AutomaticThought> := [
    AutomaticThought("TAKEN_FOR_GRANTED", "당연하게 여겨진", "Taken for Granted",
      ["슬프다", "서운하다", "실망스럽다"],
      ["감사", "인정", "배려"]),
    AutomaticThought("THREATENED", "협박받는", "Threatened",
      ["무섭다", "두렵다", "위축되다"],
      ["안전", "자율성", "선택"]),
    AutomaticThought("TRAMPLED", "짓밟힘, 유린당함", "Trampled",
      ["무력하다", "좌절하다"],
      ["자신감", "유대", "공동체", "배려", "존중"]),
    AutomaticThought("UNLOVED", "사랑받지 못한", "Unloved",
      ["슬프다", "외롭다", "비참하다"],
      ["사랑", "관심", "유대", "공감"]),
    AutomaticThought("UNSUPPORTED", "지지받지 못한", "Unsupported",
      ["무력하다", "슬프다", "외롭다"],
      ["지지", "이해"]),
    AutomaticThought("USED", "이용당한", "Used",
      ["불안하다", "억울하다", "슬프다"],
      ["자율성", "공평함", "배려", "상호성"]),
    AutomaticThought("VIOLATED", "침해당한", "Violated",
      ["짜증 난다", "혼란스럽다"],
      ["개인 보호", "안전", "신뢰", "여유", "존중"]),
    AutomaticThought("WRONGED", "부당하게 취급당한", "Wronged",
      ["억울하다", "짜증 난다", "분하다"],
      ["존중", "정의", "신뢰", "안전", "공평함"])
  ]

  /** `AUTOMATIC_THOUGHTS`. */
  const Thoughts: seq<AutomaticThought> := ThoughtsA + ThoughtsB + ThoughtsC + ThoughtsD

  // ---------------------------------------------------------------------------
  // The table's codes are distinct

  /** The position of a code in the table, or -1; it exists to show that no two rows share a code. */
  function CodeIndex(c: string): int {
    if |c| == 4 then
      if c == "USED" then 29 else -1
    else if |c| == 6 then
      if c == "ABUSED" then 1 else if c == "BLAMED" then 5 else -1
    else if |c| == 7 then
      if c == "BULLIED" then 6 else if c == "IGNORED" then 11 else if c == "UNLOVED" then 27 else if c == "WRONGED" then 31 else -1
    else if |c| == 8 then
      if c == "ATTACKED" then 3 else if c == "BETRAYED" then 4 else if c == "CONFINED" then 7 else if c == "DECEIVED" then 8 else if c == "DISLIKED" then 9 else if c == "INSULTED" then 12 else if c == "REJECTED" then 21 else if c == "TRAMPLED" then 26 else if c == "VIOLATED" then 30 else -1
    else if |c| == 9 then
      if c == "ABANDONED" then 0 else if c == "EXPLOITED" then 17 else -1
    else if |c| == 10 then
      if c == "DISTRUSTED" then 10 else if c == "RESTRAINED" then 20 else if c == "RIPPED_OFF" then 22 else if c == "SUFFOCATED" then 23 else if c == "THREATENED" then 25 else -1
    else if |c| == 11 then
      if c == "INTERRUPTED" then 13 else if c == "INTIMIDATED" then 14 else if c == "OVERPOWERED" then 16 else if c == "UNSUPPORTED" then 28 else -1
    else if |c| == 12 then
      if c == "UNRECOGNIZED" then 2 else if c == "OVERDEMANDED" then 18 else -1
    else if |c| == 13 then
      if c == "MISUNDERSTOOD" then 15 else -1
    else if |c| == 17 then
      if c == "TAKEN_FOR_GRANTED" then 24 else -1
    else if |c| == 21 then
      if c == "WITH_IRRITABLE_PERSON" then 19 else -1
    else -1
  }

  lemma ThoughtsAIndexed()
    ensures forall i | 0 <= i < |ThoughtsA| :: CodeIndex(ThoughtsA[i].code) == 0 + i
  {
    forall i | 0 <= i < |ThoughtsA| ensures CodeIndex(ThoughtsA[i].code) == 0 + i {
      if i < 4 {
        assert i == 0 || i == 1 || i == 2 || i == 3;
      } else {
        assert i == 4 || i == 5 || i == 6 || i == 7;
      }
    }
  }

  lemma ThoughtsBIndexed()
    ensures forall i | 0 <= i < |ThoughtsB| :: CodeIndex(ThoughtsB[i].code) == 8 + i
  {
    forall i | 0 <= i < |ThoughtsB| ensures CodeIndex(ThoughtsB[i].code) == 8 + i {
      if i < 4 {
        assert i == 0 || i == 1 || i == 2 || i == 3;
      } else {
        assert i == 4 || i == 5 || i == 6 || i == 7;
      }
    }
  }

  lemma ThoughtsCIndexed()
    ensures forall i | 0 <= i < |ThoughtsC| :: CodeIndex(ThoughtsC[i].code) == 16 + i
  {
    forall i | 0 <= i < |ThoughtsC| ensures CodeIndex(ThoughtsC[i].code) == 16 + i {
      if i < 4 {
        assert i == 0 || i == 1 || i == 2 || i == 3;
      } else {
        assert i == 4 || i == 5 || i == 6 || i == 7;
      }
    }
  }

  lemma ThoughtsDIndexed()
    ensures forall i | 0 <= i < |ThoughtsD| :: CodeIndex(ThoughtsD[i].code) == 24 + i
  {
    forall i | 0 <= i < |ThoughtsD| ensures CodeIndex(ThoughtsD[i].code) == 24 + i {
      if i < 4 {
        assert i == 0 || i == 1 || i == 2 || i == 3;
      } else {
        assert i == 4 || i == 5 || i == 6 || i == 7;
      }
    }
  }

  lemma TableIndexed()
    ensures forall i | 0 <= i < |Thoughts| :: CodeIndex(Thoughts[i].code) == i
  {
    ThoughtsAIndexed(); ThoughtsBIndexed(); ThoughtsCIndexed(); ThoughtsDIndexed();
  }

  /** No two rows of the table share a code. */
  lemma CodesDistinct()
    ensures forall i, j | 0 <= i < j < |Thoughts| :: Thoughts[i].code != Thoughts[j].code
  {
    TableIndexed();
  }

  lemma TableHasNoDuplicates()
    ensures NoDuplicates(Thoughts)
  {
    CodesDistinct();
  }

  // ---------------------------------------------------------------------------
  // The three lookups

  function HasCode(code: string): AutomaticThought -> bool {
    (t: AutomaticThought) => t.code == code
  }

  /** `thought.emotions.includes(emotion)`. */
  function HasEmotion(emotion: string): AutomaticThought -> bool {
    (t: AutomaticThought) => emotion in t.emotions
  }

  /** `thought.core_needs.includes(need)`. */
  function HasNeed(need: string): AutomaticThought -> bool {
    (t: AutomaticThought) => need in t.coreNeeds
  }

  /** `getAutomaticThoughtByCode`: `None` stands for `undefined`. */
  function GetAutomaticThoughtByCode(code: string): (r: Option<AutomaticThought>)
    ensures r.Some? ==> r.value.code == code && r.value in Thoughts
    ensures r.None? <==> forall i :: 0 <= i < |Thoughts| ==> Thoughts[i].code != code
  {
    Find(Thoughts, HasCode(code))
  }

  /** `getAutomaticThoughtsByEmotion`. */
  function GetAutomaticThoughtsByEmotion(emotion: string): seq<AutomaticThought> {
    Filter(Thoughts, HasEmotion(emotion))
  }

  /** `getAutomaticThoughtsByNeed`. */
  function GetAutomaticThoughtsByNeed(need: string): seq<AutomaticThought> {
    Filter(Thoughts, HasNeed(need))
  }

  /** Every code of the table finds its own row, and any other string finds nothing. */
  lemma ThoughtByCodeFindsRow(code: string)
    ensures forall i :: 0 <= i < |Thoughts| && Thoughts[i].code == code ==> GetAutomaticThoughtByCode(code) == Some(Thoughts[i])
    ensures (forall i :: 0 <= i < |Thoughts| ==> Thoughts[i].code != code) ==> GetAutomaticThoughtByCode(code) == None
  {
    CodesDistinct();
    match FirstIndex(Thoughts, HasCode(code))
    case None =>
    case Some(j) =>
      forall i | 0 <= i < |Thoughts| && Thoughts[i].code == code ensures GetAutomaticThoughtByCode(code) == Some(Thoughts[i]) {
        assert HasCode(code)(Thoughts[i]);
        assert HasCode(code)(Thoughts[j]);
      }
  }

  /** The thoughts listed for an emotion are exactly the table's rows whose emotions include it,
      each once, in table order. */
  lemma ThoughtsByEmotionExact(emotion: string)
    ensures var r := GetAutomaticThoughtsByEmotion(emotion);
      (forall i :: 0 <= i < |r| ==> r[i] in Thoughts && emotion in r[i].emotions)
      && (forall i :: 0 <= i < |Thoughts| && emotion in Thoughts[i].emotions ==> Thoughts[i] in r)
      && IsSubsequence(r, Thoughts) && NoDuplicates(r)
  {
    var r := GetAutomaticThoughtsByEmotion(emotion);
    forall i | 0 <= i < |r| ensures emotion in r[i].emotions {
      assert HasEmotion(emotion)(r[i]);
    }
    forall i | 0 <= i < |Thoughts| && emotion in Thoughts[i].emotions ensures Thoughts[i] in r {
      assert HasEmotion(emotion)(Thoughts[i]);
    }
    FilterIsSubsequence(Thoughts, HasEmotion(emotion));
    TableHasNoDuplicates();
    FilterNoDuplicates(Thoughts, HasEmotion(emotion));
  }

  /** The thoughts listed for a core need are exactly the table's rows whose core needs include
      it, each once, in table order. */
  lemma ThoughtsByNeedExact(need: string)
    ensures var r := GetAutomaticThoughtsByNeed(need);
      (forall i :: 0 <= i < |r| ==> r[i] in Thoughts && need in r[i].coreNeeds)
      && (forall i :: 0 <= i < |Thoughts| && need in Thoughts[i].coreNeeds ==> Thoughts[i] in r)
      && IsSubsequence(r, Thoughts) && NoDuplicates(r)
  {
    var r := GetAutomaticThoughtsByNeed(need);
    forall i | 0 <= i < |r| ensures need in r[i].coreNeeds {
      assert HasNeed(need)(r[i]);
    }
    forall i | 0 <= i < |Thoughts| && need in Thoughts[i].coreNeeds ensures Thoughts[i] in r {
      assert HasNeed(need)(Thoughts[i]);
    }
    FilterIsSubsequence(Thoughts, HasNeed(need));
    TableHasNoDuplicates();
    FilterNoDuplicates(Thoughts, HasNeed(need));
  }
}
