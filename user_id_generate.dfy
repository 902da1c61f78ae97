/** The allocation route src/app/api/user-id/generate/route.ts. POST takes the unused slot with the
    smallest number, composes `animal-number` with a random zodiac animal and marks the slot used;
    GET reports how many slots are available and used. The results of the two `executeQuery`
    calls of each handler are oracle inputs, and `Math.random()` is a parameter. */
module UserIdGenerate {
  import opened Wrappers
  import opened Js
  import opened UserIdSetup
  import UserUtils

  /** `ZODIAC_ANIMALS`. */
  const ZodiacAnimals: seq<string> :=
    ["rat", "ox", "tiger", "rabbit", "dragon", "snake", "horse", "sheep", "monkey", "rooster", "dog", "pig"]

  /** `Math.floor(Math.random() * ZODIAC_ANIMALS.length)` for a `Math.random()` value in [0, 1). */
  function AnimalIndex(random: real): (k: nat)
    requires 0.0 <= random < 1.0
    ensures k < |ZodiacAnimals|
  {
    var x := random * 12.0;
    assert 0.0 <= x < 12.0;
    x.Floor
  }

  /** The row `SELECT number … WHERE is_used = FALSE ORDER BY number ASC LIMIT 1` yields. */
  function SmallestUnused(rows: seq<Slot>): (r: Option<nat>)
    ensures r.None? <==> forall i :: 0 <= i < |rows| ==> rows[i].isUsed
    ensures r.Some? ==>
              r.value < |rows| && !rows[r.value].isUsed
              && forall i :: 0 <= i < |rows| && !rows[i].isUsed ==> !StrLess(rows[i].number, rows[r.value].number)
  {
    if rows == [] then None
    else
      var rest := SmallestUnused(rows[1..]);
      assert forall i :: 1 <= i < |rows| ==> rows[i] == rows[1..][i - 1];
      if rows[0].isUsed then
        (if rest.None? then None else Some(rest.value + 1))
      else if rest.None? then
        StrLessIrreflexive(rows[0].number);
        Some(0)
      else if StrLess(rows[rest.value + 1].number, rows[0].number) then
        assert !StrLess(rows[0].number, rows[rest.value + 1].number) by {
          if StrLess(rows[0].number, rows[rest.value + 1].number) {
            StrLessTransitive(rows[0].number, rows[rest.value + 1].number, rows[0].number);
            StrLessIrreflexive(rows[0].number);
          }
        }
        Some(rest.value + 1)
      else
        assert forall i :: 1 <= i < |rows| && !rows[i].isUsed ==> !StrLess(rows[i].number, rows[0].number) by {
          forall i | 1 <= i < |rows| && !rows[i].isUsed ensures !StrLess(rows[i].number, rows[0].number) {
            NotLessTransitive(rows[i].number, rows[rest.value + 1].number, rows[0].number);
          }
        }
        StrLessIrreflexive(rows[0].number);
        Some(0)
  }

  /** `UPDATE … SET is_used = TRUE, assigned_user_id = ? WHERE number = ?`. */
  function MarkUsed(rows: seq<Slot>, number: string, userId: string): (r: seq<Slot>)
    ensures |r| == |rows|
    ensures forall i :: 0 <= i < |rows| && rows[i].number != number ==> r[i] == rows[i]
    ensures forall i :: 0 <= i < |rows| && rows[i].number == number ==>
      r[i] == Slot(number, true, Some(userId))
  {
    seq(|rows|, i requires 0 <= i < |rows| =>
      if rows[i].number == number then rows[i].(isUsed := true, assignedUserId := Some(userId)) else rows[i])
  }

  /** The responses of POST. */
  datatype GenerateResponse =
    | Generated(userId: string, animal: string, number: string)   // 200, `success: true`
    | Exhausted                                                   // 503, every slot is taken
    | GenerateFailed(error: string)                               // 500, `success: false`

  function GenerateStatus(r: GenerateResponse): nat {
    match r
    case Generated(_, _, _) => 200
    case Exhausted => 503
    case GenerateFailed(_) => 500
  }

  /** The handler: the table afterwards and the response. `selectError` and `updateError` are what
      the two `executeQuery` calls throw, if anything. */
  function PostSpec(rows: seq<Slot>, random: real, selectError: Option<Thrown>, updateError: Option<Thrown>): (o: (seq<Slot>, GenerateResponse))
    requires 0.0 <= random < 1.0
    ensures o.1.Generated? ==> o.1.userId == o.1.animal + "-" + o.1.number && o.1.animal in ZodiacAnimals
    ensures !o.1.Generated? ==> o.0 == rows
    ensures o.1.GenerateFailed? <==> selectError.Some? || (SmallestUnused(rows).Some? && updateError.Some?)
  {
    if selectError.Some? then (rows, GenerateFailed(MessageOr(selectError.value, "Unknown error")))
    else match SmallestUnused(rows)
      case None => (rows, Exhausted)
      case Some(k) =>
        var number := rows[k].number;
        var animal := ZodiacAnimals[AnimalIndex(random)];
        var userId := animal + "-" + number;
        if updateError.Some? then (rows, GenerateFailed(MessageOr(updateError.value, "Unknown error")))
        else (MarkUsed(rows, number, userId), Generated(userId, animal, number))
  }

  /** Slot numbers are unique (`number … UNIQUE` in the table definition). */
  predicate UniqueNumbers(rows: seq<Slot>) {
    forall i, j :: 0 <= i < |rows| && 0 <= j < |rows| && rows[i].number == rows[j].number ==> i == j
  }

  /** A successful POST hands out the number of an unused slot that no unused slot's number
      precedes, and 503 comes exactly when every slot is used. */
  lemma PostPicksSmallest(rows: seq<Slot>, random: real, updateError: Option<Thrown>)
    requires 0.0 <= random < 1.0
    ensures var (_, resp) := PostSpec(rows, random, None, updateError);
      (resp.Exhausted? <==> forall i :: 0 <= i < |rows| ==> rows[i].isUsed)
      && (resp.Generated? ==>
            exists k ::
              0 <= k < |rows| && !rows[k].isUsed && rows[k].number == resp.number
              && forall i :: 0 <= i < |rows| && !rows[i].isUsed ==> !StrLess(rows[i].number, resp.number))
  {
    var s := SmallestUnused(rows);
    if s.Some? && updateError.None? {
      assert rows[s.value].number == PostSpec(rows, random, None, updateError).1.number;
    }
  }

  /** On a table seeded with four-digit numbers the handed-out number is also the numerically
      smallest unused one. */
  lemma PostPicksNumericallySmallest(rows: seq<Slot>, random: real)
    requires 0.0 <= random < 1.0
    requires forall i :: 0 <= i < |rows| ==> |rows[i].number| == 4 && AllDigits(rows[i].number)
    ensures var (_, resp) := PostSpec(rows, random, None, None);
      resp.Generated? ==>
        AllDigits(resp.number)
        && forall i :: 0 <= i < |rows| && !rows[i].isUsed ==> DecimalValue(resp.number) <= DecimalValue(rows[i].number)
  {
    var s := SmallestUnused(rows);
    if s.Some? {
      var n := rows[s.value].number;
      forall i | 0 <= i < |rows| && !rows[i].isUsed ensures DecimalValue(n) <= DecimalValue(rows[i].number) {
        DigitStringOrder(rows[i].number, n);
      }
    }
  }

  /** A successful POST changes exactly the chosen slot: it becomes used and records the id; every
      other slot is as it was. */
  lemma PostChangesOnlyChosen(rows: seq<Slot>, random: real)
    requires 0.0 <= random < 1.0
    requires UniqueNumbers(rows)
    ensures var (rows', resp) := PostSpec(rows, random, None, None);
      resp.Generated? ==>
        exists k ::
          0 <= k < |rows| && !rows[k].isUsed && rows' == rows[k := Slot(resp.number, true, Some(resp.userId))]
  {
    var s := SmallestUnused(rows);
    if s.Some? {
      var k := s.value;
      var (rows', resp) := PostSpec(rows, random, None, None);
      assert rows' == rows[k := Slot(resp.number, true, Some(resp.userId))];
    }
  }

  /** No call marks a slot unused again or drops a row, and the slot numbers stay the same. */
  lemma PostKeepsUsed(rows: seq<Slot>, random: real, selectError: Option<Thrown>, updateError: Option<Thrown>)
    requires 0.0 <= random < 1.0
    ensures var (rows', _) := PostSpec(rows, random, selectError, updateError);
      |rows'| == |rows|
      && (forall i :: 0 <= i < |rows| ==> rows'[i].number == rows[i].number && (rows[i].isUsed ==> rows'[i].isUsed))
  {
  }

  function CountUsed(rows: seq<Slot>): (n: nat)
    ensures n <= |rows|
  {
    if rows == [] then 0 else (if rows[0].isUsed then 1 else 0) + CountUsed(rows[1..])
  }

  lemma {:induction false} CountUsedOneMore(rows: seq<Slot>, k: nat, slot: Slot)
    requires k < |rows| && !rows[k].isUsed && slot.isUsed
    ensures CountUsed(rows[k := slot]) == CountUsed(rows) + 1
  {
    if k > 0 {
      CountUsedOneMore(rows[1..], k - 1, slot);
      assert rows[k := slot][1..] == rows[1..][k - 1 := slot];
    } else {
      assert rows[k := slot][1..] == rows[1..];
    }
  }

  /** Each successful POST uses up exactly one more slot. */
  lemma PostUsesOneSlot(rows: seq<Slot>, random: real)
    requires 0.0 <= random < 1.0
    requires UniqueNumbers(rows)
    ensures var (rows', resp) := PostSpec(rows, random, None, None);
      resp.Generated? ==> CountUsed(rows') == CountUsed(rows) + 1
  {
    PostChangesOnlyChosen(rows, random);
    var (rows', resp) := PostSpec(rows, random, None, None);
    if resp.Generated? {
      var k :| 0 <= k < |rows| && !rows[k].isUsed && rows' == rows[k := Slot(resp.number, true, Some(resp.userId))];
      CountUsedOneMore(rows, k, Slot(resp.number, true, Some(resp.userId)));
    }
  }

  /** For a four-digit slot number the id handed out passes `isValidZodiacId`. */
  lemma GeneratedIdIsZodiac(rows: seq<Slot>, random: real)
    requires 0.0 <= random < 1.0
    requires forall i :: 0 <= i < |rows| ==> |rows[i].number| == 4 && AllDigits(rows[i].number)
    ensures var (_, resp) := PostSpec(rows, random, None, None);
      resp.Generated? ==> UserUtils.IsValidZodiacId(resp.userId)
  {
    var s := SmallestUnused(rows);
    if s.Some? {
      var k := AnimalIndex(random);
      var animal := ZodiacAnimals[k];
      var number := rows[s.value].number;
      var id := animal + "-" + number;
      assert UserUtils.ZodiacWords[k] == animal;
      assert id[..|animal|] == animal;
      ToLowerAsciiNoUpper(animal);
      assert id[|animal| + 1..] == number;
      assert UserUtils.ZodiacLayout(id, k);
      UserUtils.IsValidZodiacIdIff(id);
    }
  }

  /** The responses of GET. */
  datatype StatsResponse =
    | Stats(available: int, total: int, used: int)   // 200
    | StatsFailed(error: string)                     // 500

  /** The handler: `available` counts the unused rows, `total` all rows, `used` is their difference.
      `availableError` and `totalError` are what the two count queries throw, if anything. */
  function GetSpec(rows: seq<Slot>, availableError: Option<Thrown>, totalError: Option<Thrown>): (r: StatsResponse)
    ensures r.Stats? <==> availableError.None? && totalError.None?
    ensures r.Stats? ==> r.used == r.total - r.available
  {
    if availableError.Some? then StatsFailed(MessageOr(availableError.value, "Unknown error"))
    else if totalError.Some? then StatsFailed(MessageOr(totalError.value, "Unknown error"))
    else
      var available := |rows| - CountUsed(rows);
      Stats(available, |rows|, |rows| - available)
  }

  /** `used` is the number of used rows, and no count is negative. */
  lemma StatsCountUsed(rows: seq<Slot>)
    ensures var r := GetSpec(rows, None, None);
      r.used == CountUsed(rows) && 0 <= r.available <= r.total && r.total == |rows|
  {
  }

  /** The slot table the route reads and updates. */
  class SequenceTable {
    var rows: seq<Slot>

    constructor (rows: seq<Slot>)
      ensures this.rows == rows
    {
      this.rows := rows;
    }

    /** POST `/api/user-id/generate`. */
    method Post(random: real, selectError: Option<Thrown>, updateError: Option<Thrown>) returns (resp: GenerateResponse)
      requires 0.0 <= random < 1.0
      modifies this
      ensures (rows, resp) == PostSpec(old(rows), random, selectError, updateError)
    {
      if selectError.Some? {
        return GenerateFailed(MessageOr(selectError.value, "Unknown error"));
      }
      var available := SmallestUnused(rows);
      if available.None? {
        return Exhausted;
      }
      var sequenceNumber := rows[available.value].number;
      var randomAnimal := ZodiacAnimals[AnimalIndex(random)];
      var userId := randomAnimal + "-" + sequenceNumber;
      if updateError.Some? {
        return GenerateFailed(MessageOr(updateError.value, "Unknown error"));
      }
      rows := MarkUsed(rows, sequenceNumber, userId);
      resp := Generated(userId, randomAnimal, sequenceNumber);
    }

  }
}
