/** The emotion tag table src/constants/emotions.ts and its three helpers: grouping the tags by
    category, looking a tag up by code, and listing one category's tags. */
module Emotions {
  import opened Wrappers
  import opened Lookup

  datatype EmotionTag = EmotionTag(code: string, labelKo: string, labelEn: string, category: string)

  // ---------------------------------------------------------------------------
  // EMOTION_CATEGORIES and EMOTION_TAGS

  const Anxiety: string := "불안/긴장"
  const Blocked: string := "답답/막힘"
  const Anger: string := "짜증/분노"
  const Sadness: string := "슬픔/우울"
  const Confusion: string := "혼란/판단 어려움"
  const Reflection: string := "성찰/마음정리"
  const Calm: string := "안정/평온"
  const Inspiration: string := "영감/상승"
  const AnxietyTags: seq<EmotionTag> := [
    EmotionTag("MILD_ANXIETY", "가벼운 불안", "Mild Anxiety", Anxiety),
    EmotionTag("FREE_FLOATING_ANXIETY", "이유 없는 불안", "Free-floating Anxiety", Anxiety),
    EmotionTag("PERFORMANCE_PRESSURE", "성과 압박감", "Performance Pressure", Anxiety),
    EmotionTag("FUTURE_WORRY", "미래 걱정", "Future Worry", Anxiety),
    EmotionTag("FEAR_OF_MISTAKES", "실수 두려움", "Fear of Mistakes", Anxiety),
    EmotionTag("RELATIONAL_ANXIETY", "관계 불안", "Relational Anxiety", Anxiety),
    EmotionTag("FEAR_OF_JUDGEMENT", "평가받는 느낌", "Fear of Judgement", Anxiety),
    EmotionTag("FAILURE_FEAR", "실패 공포", "Failure Fear", Anxiety),
    EmotionTag("RESPONSIBILITY_PRESSURE", "책임 부담", "Responsibility Pressure", Anxiety)
  ]
  const BlockedTags: seq<EmotionTag> := [
    EmotionTag("UNABLE_TO_EXPRESS", "말 못함", "Unable to Express", Blocked),
    EmotionTag("MENTAL_BLOCK", "생각 막힘", "Mental Block", Blocked),
    EmotionTag("SITUATIONAL_BLOCK", "상황 막힘", "Situational Block", Blocked),
    EmotionTag("EMOTIONAL_SUPPRESSION", "감정 억눌림", "Emotional Suppression", Blocked),
    EmotionTag("LOW_DRIVE", "무기력", "Low Drive", Blocked),
    EmotionTag("GIVING_UP", "체념", "Giving Up", Blocked)
  ]
  const AngerTags: seq<EmotionTag> := [
    EmotionTag("IRRITATION", "짜증", "Irritation", Anger),
    EmotionTag("FRUSTRATION", "답답 + 분노 혼합", "Frustration", Anger),
    EmotionTag("UNFAIRNESS", "억울함", "Unfairness", Anger),
    EmotionTag("FEELING_INVALIDATED", "무시당한 느낌", "Feeling Invalidated", Anger),
    EmotionTag("ANGER_AT_INEFFICIENCY", "비효율 분노", "Anger at Inefficiency", Anger),
    EmotionTag("LOSS_OF_CONTROL", "통제 잃음", "Loss of Control", Anger)
  ]
  const SadnessTags: seq<EmotionTag> := [
    EmotionTag("HURT_FEELINGS", "서운함", "Hurt Feelings", Sadness),
    EmotionTag("DISAPPOINTMENT", "실망", "Disappointment", Sadness),
    EmotionTag("LONELINESS", "외로움", "Loneliness", Sadness),
    EmotionTag("SENSE_OF_LOSS", "상실감", "Sense of Loss", Sadness),
    EmotionTag("SADNESS", "슬픔", "Sadness", Sadness),
    EmotionTag("EMPTINESS", "공허함", "Emptiness", Sadness),
    EmotionTag("MEANINGLESSNESS", "의미 상실", "Meaninglessness", Sadness)
  ]
  const ConfusionTags: seq<EmotionTag> := [
    EmotionTag("OVERTHINKING", "생각 과부하", "Overthinking", Confusion),
    EmotionTag("INDECISION", "판단 보류", "Indecision", Confusion),
    EmotionTag("ROLE_CONFUSION", "역할 혼란", "Role Confusion", Confusion),
    EmotionTag("VALUE_CONFLICT", "가치관 충돌", "Value Conflict", Confusion),
    EmotionTag("SHAKEN_BELIEF", "신념 흔들림", "Shaken Belief", Confusion),
    EmotionTag("LOST_SENSE_OF_DIRECTION", "방향 상실", "Lost Sense of Direction", Confusion),
    EmotionTag("TOO_MANY_OPTIONS", "선택지 과다", "Too Many Options", Confusion),
    EmotionTag("NO_CLEAR_ANSWER", "해답 없음", "No Clear Answer", Confusion),
    EmotionTag("DIRECTION_UNCERTAINTY", "방향성 혼란", "Direction Uncertainty", Confusion)
  ]
  const ReflectionTags: seq<EmotionTag> := [
    EmotionTag("REFLECTION", "반성", "Reflection", Reflection),
    EmotionTag("MENTAL_CLARITY", "정리됨", "Mental Clarity", Reflection),
    EmotionTag("PERSPECTIVE_SHIFT", "관점 변화", "Perspective Shift", Reflection),
    EmotionTag("REALIZATION", "깨달음", "Realization", Reflection),
    EmotionTag("SELF_AWARENESS_INCREASE", "자기이해 상승", "Self-awareness Increase", Reflection),
    EmotionTag("SELF_COMPASSION", "따뜻한 자기이해", "Self-compassion", Reflection),
    EmotionTag("INSIGHT", "새로운 통찰", "Insight", Reflection)
  ]
  const CalmTags: seq<EmotionTag> := [
    EmotionTag("CALM", "평온", "Calm", Calm),
    EmotionTag("RELAXED", "느긋함", "Relaxed", Calm),
    EmotionTag("STABILITY", "안정감", "Stability", Calm)
  ]
  const InspirationTags: seq<EmotionTag> := [
    EmotionTag("INSPIRATION", "영감", "Inspiration", Inspiration),
    EmotionTag("CREATIVE_DRIVE", "창조적 동기", "Creative Drive", Inspiration),
    EmotionTag("EXCITEMENT", "설렘", "Excitement", Inspiration),
    EmotionTag("FORWARD_ENERGY", "앞으로 나아갈 힘", "Forward Energy", Inspiration)
  ]
  /** `EMOTION_TAGS`, category by category as the source lists them. */
  const EmotionTags: seq<EmotionTag> := AnxietyTags + BlockedTags + AngerTags + SadnessTags + ConfusionTags + ReflectionTags + CalmTags + InspirationTags

  /** The values of `EMOTION_CATEGORIES`, in declaration order. */
  const Categories: seq<string> := [Anxiety, Blocked, Anger, Sadness, Confusion, Reflection, Calm, Inspiration]

  // ---------------------------------------------------------------------------
  // The table's codes are distinct

  /** The position of a code in the table, or -1; it exists to show that no two rows share a code. */
  function CodeIndex(c: string): int {
    if |c| == 4 then
      if c == "CALM" then 44 else -1
    else if |c| == 7 then
      if c == "SADNESS" then 25 else if c == "INSIGHT" then 43 else if c == "RELAXED" then 45 else -1
    else if |c| == 9 then
      if c == "LOW_DRIVE" then 13 else if c == "GIVING_UP" then 14 else if c == "EMPTINESS" then 26 else if c == "STABILITY" then 46 else -1
    else if |c| == 10 then
      if c == "IRRITATION" then 15 else if c == "UNFAIRNESS" then 17 else if c == "LONELINESS" then 23 else if c == "INDECISION" then 29 else if c == "REFLECTION" then 37 else if c == "EXCITEMENT" then 49 else -1
    else if |c| == 11 then
      if c == "FRUSTRATION" then 16 else if c == "REALIZATION" then 40 else if c == "INSPIRATION" then 47 else -1
    else if |c| == 12 then
      if c == "MILD_ANXIETY" then 0 else if c == "FUTURE_WORRY" then 3 else if c == "FAILURE_FEAR" then 7 else if c == "MENTAL_BLOCK" then 10 else if c == "OVERTHINKING" then 28 else -1
    else if |c| == 13 then
      if c == "HURT_FEELINGS" then 21 else if c == "SENSE_OF_LOSS" then 24 else if c == "SHAKEN_BELIEF" then 32 else -1
    else if |c| == 14 then
      if c == "DISAPPOINTMENT" then 22 else if c == "ROLE_CONFUSION" then 30 else if c == "VALUE_CONFLICT" then 31 else if c == "MENTAL_CLARITY" then 38 else if c == "CREATIVE_DRIVE" then 48 else if c == "FORWARD_ENERGY" then 50 else -1
    else if |c| == 15 then
      if c == "LOSS_OF_CONTROL" then 20 else if c == "MEANINGLESSNESS" then 27 else if c == "NO_CLEAR_ANSWER" then 35 else if c == "SELF_COMPASSION" then 42 else -1
    else if |c| == 16 then
      if c == "FEAR_OF_MISTAKES" then 4 else if c == "TOO_MANY_OPTIONS" then 34 else -1
    else if |c| == 17 then
      if c == "FEAR_OF_JUDGEMENT" then 6 else if c == "UNABLE_TO_EXPRESS" then 9 else if c == "SITUATIONAL_BLOCK" then 11 else if c == "PERSPECTIVE_SHIFT" then 39 else -1
    else if |c| == 18 then
      if c == "RELATIONAL_ANXIETY" then 5 else -1
    else if |c| == 19 then
      if c == "FEELING_INVALIDATED" then 18 else -1
    else if |c| == 20 then
      if c == "PERFORMANCE_PRESSURE" then 2 else -1
    else if |c| == 21 then
      if c == "FREE_FLOATING_ANXIETY" then 1 else if c == "EMOTIONAL_SUPPRESSION" then 12 else if c == "ANGER_AT_INEFFICIENCY" then 19 else if c == "DIRECTION_UNCERTAINTY" then 36 else -1
    else if |c| == 23 then
      if c == "RESPONSIBILITY_PRESSURE" then 8 else if c == "LOST_SENSE_OF_DIRECTION" then 33 else if c == "SELF_AWARENESS_INCREASE" then 41 else -1
    else -1
  }
  lemma AnxietyTagsIndexed()
    ensures forall i | 0 <= i < |AnxietyTags| :: CodeIndex(AnxietyTags[i].code) == 0 + i {
    forall i | 0 <= i < |AnxietyTags| ensures CodeIndex(AnxietyTags[i].code) == 0 + i {
      assert i == 0 || i == 1 || i == 2 || i == 3 || i == 4 || i == 5 || i == 6 || i == 7 || i == 8;
    }
  }
  lemma BlockedTagsIndexed()
    ensures forall i | 0 <= i < |BlockedTags| :: CodeIndex(BlockedTags[i].code) == 9 + i {
    forall i | 0 <= i < |BlockedTags| ensures CodeIndex(BlockedTags[i].code) == 9 + i {
      assert i == 0 || i == 1 || i == 2 || i == 3 || i == 4 || i == 5;
    }
  }
  lemma AngerTagsIndexed()
    ensures forall i | 0 <= i < |AngerTags| :: CodeIndex(AngerTags[i].code) == 15 + i {
    forall i | 0 <= i < |AngerTags| ensures CodeIndex(AngerTags[i].code) == 15 + i {
      assert i == 0 || i == 1 || i == 2 || i == 3 || i == 4 || i == 5;
    }
  }
  lemma SadnessTagsIndexed()
    ensures forall i | 0 <= i < |SadnessTags| :: CodeIndex(SadnessTags[i].code) == 21 + i {
    forall i | 0 <= i < |SadnessTags| ensures CodeIndex(SadnessTags[i].code) == 21 + i {
      assert i == 0 || i == 1 || i == 2 || i == 3 || i == 4 || i == 5 || i == 6;
    }
  }
  lemma ConfusionTagsIndexed()
    ensures forall i | 0 <= i < |ConfusionTags| :: CodeIndex(ConfusionTags[i].code) == 28 + i {
    forall i | 0 <= i < |ConfusionTags| ensures CodeIndex(ConfusionTags[i].code) == 28 + i {
      assert i == 0 || i == 1 || i == 2 || i == 3 || i == 4 || i == 5 || i == 6 || i == 7 || i == 8;
    }
  }
  lemma ReflectionTagsIndexed()
    ensures forall i | 0 <= i < |ReflectionTags| :: CodeIndex(ReflectionTags[i].code) == 37 + i {
    forall i | 0 <= i < |ReflectionTags| ensures CodeIndex(ReflectionTags[i].code) == 37 + i {
      assert i == 0 || i == 1 || i == 2 || i == 3 || i == 4 || i == 5 || i == 6;
    }
  }
  lemma CalmTagsIndexed()
    ensures forall i | 0 <= i < |CalmTags| :: CodeIndex(CalmTags[i].code) == 44 + i {
    forall i | 0 <= i < |CalmTags| ensures CodeIndex(CalmTags[i].code) == 44 + i {
      assert i == 0 || i == 1 || i == 2;
    }
  }
  lemma InspirationTagsIndexed()
    ensures forall i | 0 <= i < |InspirationTags| :: CodeIndex(InspirationTags[i].code) == 47 + i {
    forall i | 0 <= i < |InspirationTags| ensures CodeIndex(InspirationTags[i].code) == 47 + i {
      assert i == 0 || i == 1 || i == 2 || i == 3;
    }
  }
  lemma TableIndexed()
    ensures forall i | 0 <= i < |EmotionTags| :: CodeIndex(EmotionTags[i].code) == i {
    AnxietyTagsIndexed(); BlockedTagsIndexed(); AngerTagsIndexed(); SadnessTagsIndexed();
    ConfusionTagsIndexed(); ReflectionTagsIndexed(); CalmTagsIndexed(); InspirationTagsIndexed();
  }
  lemma CodesDistinct()
    ensures forall i, j | 0 <= i < j < |EmotionTags| :: EmotionTags[i].code != EmotionTags[j].code {
    TableIndexed();
  }

  lemma TableHasNoDuplicates()
    ensures NoDuplicates(EmotionTags)
  {
    CodesDistinct();
  }

  // ---------------------------------------------------------------------------
  // getEmotionByCode and getEmotionsByCategory

  function HasCode(code: string): EmotionTag -> bool {
    (t: EmotionTag) => t.code == code
  }

  function InCategory(category: string): EmotionTag -> bool {
    (t: EmotionTag) => t.category == category
  }

  /** `getEmotionByCode`: `None` stands for `undefined`. */
  function GetEmotionByCode(code: string): (r: Option<EmotionTag>)
    ensures r.Some? ==> r.value.code == code && r.value in EmotionTags
    ensures r.None? <==> forall i :: 0 <= i < |EmotionTags| ==> EmotionTags[i].code != code
  {
    Find(EmotionTags, HasCode(code))
  }

  /** `getEmotionsByCategory`. */
  function GetEmotionsByCategory(category: string): seq<EmotionTag> {
    Filter(EmotionTags, InCategory(category))
  }

  /** In a list whose codes are distinct, a code finds the one row that carries it, and a code
      no row carries finds nothing. */
  lemma FindByDistinctCode(tags: seq<EmotionTag>, code: string)
    requires forall i, j | 0 <= i < j < |tags| :: tags[i].code != tags[j].code
    ensures forall i :: 0 <= i < |tags| && tags[i].code == code ==> Find(tags, HasCode(code)) == Some(tags[i])
    ensures (forall i :: 0 <= i < |tags| ==> tags[i].code != code) ==> Find(tags, HasCode(code)) == None
  {
    match FirstIndex(tags, HasCode(code))
    case None =>
    case Some(j) =>
      forall i | 0 <= i < |tags| && tags[i].code == code ensures Find(tags, HasCode(code)) == Some(tags[i]) {
        assert HasCode(code)(tags[i]);
        assert HasCode(code)(tags[j]);
      }
  }

  /** Every code of the table finds its own row, and any other string finds nothing. */
  lemma EmotionByCodeFindsRow(code: string)
    ensures forall i :: 0 <= i < |EmotionTags| && EmotionTags[i].code == code ==> GetEmotionByCode(code) == Some(EmotionTags[i])
    ensures (forall i :: 0 <= i < |EmotionTags| ==> EmotionTags[i].code != code) ==> GetEmotionByCode(code) == None
  {
    CodesDistinct();
    FindByDistinctCode(EmotionTags, code);
  }

  /** Filtering a duplicate-free list by a category keeps exactly that category's entries, each
      once, in order; the result is empty exactly when the category is not among the keys. */
  lemma FilterCategoryExact(tags: seq<EmotionTag>, category: string)
    requires NoDuplicates(tags)
    ensures var r := Filter(tags, InCategory(category));
      (forall i :: 0 <= i < |r| ==> r[i] in tags && r[i].category == category)
      && (forall i :: 0 <= i < |tags| && tags[i].category == category ==> tags[i] in r)
      && IsSubsequence(r, tags) && NoDuplicates(r)
      && (category in CategoryOrder(tags) <==> r != [])
  {
    var r := Filter(tags, InCategory(category));
    assert forall i :: 0 <= i < |r| ==> InCategory(category)(r[i]);
    FilterIsSubsequence(tags, InCategory(category));
    FilterNoDuplicates(tags, InCategory(category));
    FilterPresentCategory(tags, category);
    if category in CategoryOrder(tags) {
      CategoryOrderOnlyTags(tags, category);
      var k :| 0 <= k < |tags| && tags[k].category == category;
      assert InCategory(category)(tags[k]);
    }
  }

  /** The tags of a category are exactly the table's tags with that category, each once, in table
      order; a string that is not a category has none and a category has at least one. */
  lemma EmotionsByCategoryExact(category: string)
    ensures var r := GetEmotionsByCategory(category);
      (forall i :: 0 <= i < |r| ==> r[i] in EmotionTags && r[i].category == category)
      && (forall i :: 0 <= i < |EmotionTags| && EmotionTags[i].category == category ==> EmotionTags[i] in r)
      && IsSubsequence(r, EmotionTags) && NoDuplicates(r)
      && (category in Categories <==> r != [])
  {
    TableHasNoDuplicates();
    CategoryOrderOfTable();
    FilterCategoryExact(EmotionTags, category);
  }

  /** Every tag sits exactly once in its own category's list and in no other. */
  lemma EachTagInOneCategory(i: int, category: string)
    requires 0 <= i < |EmotionTags|
    ensures category == EmotionTags[i].category <==> multiset(GetEmotionsByCategory(category))[EmotionTags[i]] == 1
    ensures category != EmotionTags[i].category ==> EmotionTags[i] !in GetEmotionsByCategory(category)
  {
    TableHasNoDuplicates();
    if category == EmotionTags[i].category {
      FilterCountsOnce(EmotionTags, InCategory(category), EmotionTags[i]);
    } else {
      var r := GetEmotionsByCategory(category);
      forall k | 0 <= k < |r| ensures r[k].category == category {
        assert InCategory(category)(r[k]);
      }
    }
  }

  // ---------------------------------------------------------------------------
  // getEmotionsGroupedByCategory

  /** The categories in the order in which they first occur among `tags`: the key order of the
      object the grouping fills. */
  function CategoryOrder(tags: seq<EmotionTag>): seq<string> {
    if tags == [] then []
    else
      var prev := CategoryOrder(tags[..|tags| - 1]);
      var c := tags[|tags| - 1].category;
      if c in prev then prev else prev + [c]
  }

  /** Every tag's category is among the keys. */
  lemma {:induction false} CategoryOrderHasTag(tags: seq<EmotionTag>, k: int)
    requires 0 <= k < |tags|
    ensures tags[k].category in CategoryOrder(tags)
  {
    var last := |tags| - 1;
    if k < last {
      CategoryOrderHasTag(tags[..last], k);
      assert tags[..last][k] == tags[k];
    }
  }

  /** Every key is the category of some tag. */
  lemma {:induction false} CategoryOrderOnlyTags(tags: seq<EmotionTag>, c: string)
    requires c in CategoryOrder(tags)
    ensures exists k :: 0 <= k < |tags| && tags[k].category == c
  {
    var last := |tags| - 1;
    if c != tags[last].category {
      CategoryOrderOnlyTags(tags[..last], c);
      var k :| 0 <= k < |tags[..last]| && tags[..last][k].category == c;
      assert tags[k] == tags[..last][k];
    }
  }

  /** Appending a non-empty block of one category adds that category once, unless it is there. */
  lemma {:induction false} CategoryOrderBlock(a: seq<EmotionTag>, b: seq<EmotionTag>, c: string)
    requires b != [] && forall k :: 0 <= k < |b| ==> b[k].category == c
    ensures CategoryOrder(a + b) == CategoryOrder(a) + (if c in CategoryOrder(a) then [] else [c])
  {
    var ab := a + b;
    var front := b[..|b| - 1];
    assert ab[..|ab| - 1] == a + front;
    if front == [] {
      assert a + front == a;
    } else {
      CategoryOrderBlock(a, front, c);
    }
  }

  /** The eight category names are distinct: they differ in their first character. */
  lemma CategoriesDistinct()
    ensures NoDuplicates(Categories)
  {
    var heads := seq(|Categories|, i requires 0 <= i < |Categories| => Categories[i][0]);
    assert heads == ['불', '답', '짜', '슬', '혼', '성', '안', '영'];
  }

  /** The next block of the table brings the next category. */
  lemma CategoryOrderNextBlock(a: seq<EmotionTag>, b: seq<EmotionTag>, k: nat)
    requires k < |Categories| && CategoryOrder(a) == Categories[..k]
    requires b != [] && forall j :: 0 <= j < |b| ==> b[j].category == Categories[k]
    ensures CategoryOrder(a + b) == Categories[..k + 1]
  {
    CategoriesDistinct();
    CategoryOrderBlock(a, b, Categories[k]);
    assert Categories[..k + 1] == Categories[..k] + [Categories[k]];
  }

  /** The first two blocks bring the first two categories. */
  lemma CategoryOrderFirstTwo()
    ensures CategoryOrder(AnxietyTags + BlockedTags) == Categories[..2]
  {
    assert [] + AnxietyTags == AnxietyTags;
    CategoryOrderNextBlock([], AnxietyTags, 0);
    CategoryOrderNextBlock(AnxietyTags, BlockedTags, 1);
  }

  /** The first four blocks bring the first four categories. */
  lemma CategoryOrderFirstHalf()
    ensures CategoryOrder(AnxietyTags + BlockedTags + AngerTags + SadnessTags) == Categories[..4]
  {
    var t2 := AnxietyTags + BlockedTags;
    CategoryOrderFirstTwo();
    CategoryOrderNextBlock(t2, AngerTags, 2);
    CategoryOrderNextBlock(t2 + AngerTags, SadnessTags, 3);
  }

  /** The first six blocks bring the first six categories. */
  lemma CategoryOrderFirstSix()
    ensures CategoryOrder(AnxietyTags + BlockedTags + AngerTags + SadnessTags + ConfusionTags + ReflectionTags) == Categories[..6]
  {
    var t4 := AnxietyTags + BlockedTags + AngerTags + SadnessTags;
    CategoryOrderFirstHalf();
    CategoryOrderNextBlock(t4, ConfusionTags, 4);
    CategoryOrderNextBlock(t4 + ConfusionTags, ReflectionTags, 5);
  }

  /** The tags' categories first occur in the order `EMOTION_CATEGORIES` declares them. */
  lemma CategoryOrderOfTable()
    ensures CategoryOrder(EmotionTags) == Categories
  {
    var t6 := AnxietyTags + BlockedTags + AngerTags + SadnessTags + ConfusionTags + ReflectionTags;
    CategoryOrderFirstSix();
    CategoryOrderNextBlock(t6, CalmTags, 6);
    CategoryOrderNextBlock(t6 + CalmTags, InspirationTags, 7);
    assert Categories[..8] == Categories;
  }

  /** Only a category that occurs among `tags` has tags in them. */
  lemma FilterPresentCategory(tags: seq<EmotionTag>, c: string)
    ensures Filter(tags, InCategory(c)) != [] ==> c in CategoryOrder(tags)
  {
    var r := Filter(tags, InCategory(c));
    if r != [] {
      assert InCategory(c)(r[0]);
      var k :| 0 <= k < |tags| && tags[k] == r[0];
      CategoryOrderHasTag(tags, k);
    }
  }

  /** After the first `i` tags, the groups and the key order are those of `tags[..i]`. */
  ghost predicate GroupedUpTo(tags: seq<EmotionTag>, i: nat, grouped: map<string, seq<EmotionTag>>, keys: seq<string>)
    requires i <= |tags|
  {
    keys == CategoryOrder(tags[..i])
    && (forall c :: c in grouped <==> c in keys)
    && (forall c :: c in grouped ==> grouped[c] == Filter(tags[..i], InCategory(c)))
  }

  /** One more tag adds its category to the key order unless it is already there. */
  lemma CategoryOrderStep(tags: seq<EmotionTag>, i: nat)
    requires i < |tags|
    ensures var c := tags[i].category; var prev := CategoryOrder(tags[..i]);
      CategoryOrder(tags[..i + 1]) == if c in prev then prev else prev + [c]
  {
    assert tags[..i + 1][..i] == tags[..i];
  }

  /** One more tag joins its own category's group and no other. */
  lemma FilterStep(tags: seq<EmotionTag>, i: nat, d: string)
    requires i < |tags|
    ensures Filter(tags[..i + 1], InCategory(d))
      == Filter(tags[..i], InCategory(d)) + (if tags[i].category == d then [tags[i]] else [])
  {
    assert tags[..i + 1] == tags[..i] + [tags[i]];
    FilterAppend(tags[..i], tags[i], InCategory(d));
  }

  /** Creating a missing group and pushing onto it keeps the groups and the key order in step. */
  lemma PushKeepsKeys(grouped: map<string, seq<EmotionTag>>, keys: seq<string>, c: string, t: EmotionTag)
    requires forall d :: d in grouped <==> d in keys
    ensures var g := if c in grouped then grouped else grouped[c := []];
      var k := if c in grouped then keys else keys + [c];
      forall d :: d in g[c := g[c] + [t]] <==> d in k
  {
  }

  /** One `forEach` step: create the group on the category's first tag, then push the tag. */
  lemma GroupStep(tags: seq<EmotionTag>, i: nat, grouped: map<string, seq<EmotionTag>>, keys: seq<string>)
    requires i < |tags| && GroupedUpTo(tags, i, grouped, keys)
    ensures var c := tags[i].category;
      var g := if c in grouped then grouped else grouped[c := []];
      var k := if c in grouped then keys else keys + [c];
      GroupedUpTo(tags, i + 1, g[c := g[c] + [tags[i]]], k)
  {
    var t := tags[i];
    var c := t.category;
    var g := if c in grouped then grouped else grouped[c := []];
    var k := if c in grouped then keys else keys + [c];
    var g' := g[c := g[c] + [t]];
    CategoryOrderStep(tags, i);
    assert k == CategoryOrder(tags[..i + 1]);
    PushKeepsKeys(grouped, keys, c, t);
    FilterPresentCategory(tags[..i], c);
    assert g[c] == Filter(tags[..i], InCategory(c));
    forall d | d in g'
      ensures g'[d] == Filter(tags[..i + 1], InCategory(d))
    {
      FilterStep(tags, i, d);
    }
    assert GroupedUpTo(tags, i + 1, g', k);
  }

  /** `getEmotionsGroupedByCategory`, `keys` being the order of the object's keys. */
  method GetEmotionsGroupedByCategory() returns (grouped: map<string, seq<EmotionTag>>, keys: seq<string>)
    ensures keys == Categories
    ensures forall c :: c in grouped <==> c in keys
    ensures forall c :: c in grouped ==> grouped[c] == GetEmotionsByCategory(c)
  {
    var tags := EmotionTags;
    grouped, keys := map[], [];
    for i := 0 to |tags|
      invariant GroupedUpTo(tags, i, grouped, keys)
    {
      GroupStep(tags, i, grouped, keys);
      var t := tags[i];
      if t.category !in grouped {
        grouped := grouped[t.category := []];
        keys := keys + [t.category];
      }
      grouped := grouped[t.category := grouped[t.category] + [t]];
    }
    assert tags[..|tags|] == tags;
    CategoryOrderOfTable();
  }
}
