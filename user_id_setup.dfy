/** The seeding script scripts/setup-user-id-sequence.js: if `user_id_sequence` is empty, insert
    the numbers 0001 to 9999, unused, in batches of 100 rows inside one transaction, rolled back on
    any error. Connecting, the statements and the commit are oracle inputs. */
module UserIdSetup {
  import opened Wrappers
  import opened Js

  const LastNumber: nat := 9999
  const BatchSize: nat := 100
  /** The number of batches the outer loop runs: `i` = 1, 101, …, 9901. */
  const BatchCount: nat := 100

  /** A row of `user_id_sequence`: its four-digit number, whether it is taken, and by whom. */
  datatype Slot = Slot(number: string, isUsed: bool, assignedUserId: Option<string>)

  /** `String(j).padStart(4, '0')`. */
  function Pad4(j: nat): string {
    PadStart(NatToString(j), 4, '0')
  }

  /** A seeded number has exactly four digits and denotes `j`. */
  lemma Pad4Shape(j: nat)
    requires 1 <= j <= LastNumber
    ensures |Pad4(j)| == 4 && AllDigits(Pad4(j)) && DecimalValue(Pad4(j)) == j
  {
    var n := NatToString(j);
    NatToStringLength(j, 4);
    var z := 4 - |n|;
    ZeroPadValue(n, z);
    assert Pad4(j) == Repeat('0', z) + n;
  }

  /** Different numbers get different strings, and the string order is the numeric order, which is
      what the allocator's `ORDER BY number` relies on. */
  lemma Pad4Order(a: nat, b: nat)
    requires 1 <= a <= LastNumber && 1 <= b <= LastNumber
    ensures Pad4(a) == Pad4(b) <==> a == b
    ensures StrLess(Pad4(a), Pad4(b)) <==> a < b
  {
    Pad4Shape(a);
    Pad4Shape(b);
    DigitStringOrder(Pad4(a), Pad4(b));
  }

  /** The rows for the numbers `lo` up to but excluding `hi`, as the script inserts them. */
  function SeedRows(lo: nat, hi: nat): (rows: seq<Slot>)
    requires lo <= hi
    ensures |rows| == hi - lo
  {
    seq(hi - lo, k requires 0 <= k => Slot(Pad4(lo + k), false, None))
  }

  /** The full seed: row k holds the number k+1, for 1..9999. */
  function Seed(): seq<Slot> {
    SeedRows(1, LastNumber + 1)
  }

  /** Row k of the seed holds the number k+1. */
  lemma SeedAt(k: nat)
    requires k < LastNumber
    ensures |Seed()| == LastNumber && Seed()[k] == Slot(Pad4(k + 1), false, None)
  {
  }

  /** Every seeded row holds its four-digit number, unused and unassigned. */
  lemma SeedShape()
    ensures |Seed()| == LastNumber
    ensures forall k :: 0 <= k < |Seed()| ==>
      var r := Seed()[k];
      |r.number| == 4 && AllDigits(r.number) && DecimalValue(r.number) == k + 1 && !r.isUsed && r.assignedUserId.None?
  {
    SeedAt(0);
    forall k | 0 <= k < |Seed()|
      ensures var r := Seed()[k];
        |r.number| == 4 && AllDigits(r.number) && DecimalValue(r.number) == k + 1 && !r.isUsed && r.assignedUserId.None?
    {
      SeedAt(k);
      Pad4Shape(k + 1);
    }
  }

  /** The seeded numbers are distinct and in ascending string order. */
  lemma SeedOrdered()
    ensures forall k, m :: 0 <= k < m < |Seed()| ==> StrLess(Seed()[k].number, Seed()[m].number)
    ensures forall k, m :: 0 <= k < |Seed()| && 0 <= m < |Seed()| && Seed()[k].number == Seed()[m].number ==> k == m
  {
    SeedAt(0);
    forall k, m | 0 <= k < |Seed()| && 0 <= m < |Seed()|
      ensures (Seed()[k].number == Seed()[m].number <==> k == m) && (StrLess(Seed()[k].number, Seed()[m].number) <==> k < m)
    {
      SeedAt(k);
      SeedAt(m);
      Pad4Order(k + 1, m + 1);
    }
  }

  /** Every number 1..9999 is seeded exactly once, as four digits, unused, and the rows are in
      ascending order of their strings. */
  lemma SeedContents()
    ensures |Seed()| == LastNumber
    ensures forall k :: 0 <= k < |Seed()| ==>
      var r := Seed()[k];
      |r.number| == 4 && AllDigits(r.number) && DecimalValue(r.number) == k + 1 && !r.isUsed && r.assignedUserId.None?
    ensures forall k, m :: 0 <= k < m < |Seed()| ==> StrLess(Seed()[k].number, Seed()[m].number)
    ensures forall k, m :: 0 <= k < |Seed()| && 0 <= m < |Seed()| && Seed()[k].number == Seed()[m].number ==> k == m
  {
    SeedShape();
    SeedOrdered();
  }

  /** The numbers batch `b` covers: `i` = 100·b + 1 up to 100·b + 100, capped at 9999. */
  function BatchNumbers(b: nat): seq<nat> {
    var lo := BatchSize * b + 1;
    var hi := if lo + BatchSize <= LastNumber + 1 then lo + BatchSize else LastNumber + 1;
    if lo <= hi then seq(hi - lo, k => lo + k) else []
  }

  function Flatten(batches: seq<seq<nat>>): seq<nat> {
    if batches == [] then [] else Flatten(batches[..|batches| - 1]) + batches[|batches| - 1]
  }

  /** The batches of the first `n` rounds together cover 1 up to 100·n, capped at 9999, in order. */
  lemma {:induction false} BatchesCover(n: nat)
    requires n <= BatchCount
    ensures var hi := if BatchSize * n <= LastNumber then BatchSize * n else LastNumber;
      Flatten(seq(n, b requires 0 <= b => BatchNumbers(b))) == seq(hi, k => k + 1)
  {
    if n > 0 {
      BatchesCover(n - 1);
      var bs := seq(n, b requires 0 <= b => BatchNumbers(b));
      assert bs[..n - 1] == seq(n - 1, b requires 0 <= b => BatchNumbers(b));
    }
  }

  /** Each batch holds at most 100 rows, and the hundred batches cover 1..9999 with no gap and no
      overlap. */
  lemma BatchPlan()
    ensures forall b :: 0 <= b < BatchCount ==> 1 <= |BatchNumbers(b)| <= BatchSize
    ensures Flatten(seq(BatchCount, b requires 0 <= b => BatchNumbers(b))) == seq(LastNumber, k => k + 1)
  {
    BatchesCover(BatchCount);
  }

  /** One past the last number of the batch that starts at `i`. */
  function BatchEnd(i: nat): nat {
    if i + BatchSize <= LastNumber + 1 then i + BatchSize else LastNumber + 1
  }

  /** The `(number, is_used)` values of the batch starting at `i`, as the inner loop pushes them. */
  method BatchValues(i: nat) returns (values: seq<(string, bool)>)
    requires 1 <= i <= LastNumber
    ensures |values| == BatchEnd(i) - i
    ensures forall k :: 0 <= k < |values| ==> values[k] == (Pad4(i + k), false)
  {
    values := [];
    var j := i;
    while j < i + BatchSize && j <= LastNumber
      invariant i <= j <= BatchEnd(i)
      invariant |values| == j - i
      invariant forall k :: 0 <= k < |values| ==> values[k] == (Pad4(i + k), false)
    {
      values := values + [(Pad4(j), false)];
      j := j + 1;
    }
  }

  /** The rows one INSERT adds: each value unused and unassigned. */
  function SlotsOf(values: seq<(string, bool)>): (rows: seq<Slot>)
    ensures |rows| == |values|
  {
    seq(|values|, k requires 0 <= k < |values| => Slot(values[k].0, values[k].1, None))
  }

  /** Inserting the batch that starts at `i` extends the seed from `i` to the batch's end. */
  lemma BatchExtendsSeed(i: nat, values: seq<(string, bool)>)
    requires 1 <= i <= LastNumber
    requires |values| == BatchEnd(i) - i
    requires forall k :: 0 <= k < |values| ==> values[k] == (Pad4(i + k), false)
    ensures SeedRows(1, i) + SlotsOf(values) == SeedRows(1, BatchEnd(i))
  {
    var lhs, rhs := SeedRows(1, i) + SlotsOf(values), SeedRows(1, BatchEnd(i));
    forall k | 0 <= k < |rhs| ensures lhs[k] == rhs[k] {
      if k >= i - 1 {
        assert lhs[k] == SlotsOf(values)[k - (i - 1)];
      }
    }
  }

  /** The batch that starts at `i` is round number `(i - 1) / 100` and covers `i` up to its end. */
  lemma BatchRound(i: nat)
    requires 1 <= i <= LastNumber && (i - 1) % BatchSize == 0
    ensures var b := (i - 1) / BatchSize;
      b < BatchCount && BatchNumbers(b) == seq(BatchEnd(i) - i, k => i + k)
      && (i + BatchSize - 1) / BatchSize == b + 1
      && seq(b, c requires 0 <= c => BatchNumbers(c)) + [BatchNumbers(b)] == seq(b + 1, c requires 0 <= c => BatchNumbers(c))
  {
    var b := (i - 1) / BatchSize;
    assert i == BatchSize * b + 1;
  }

  /** What the database does: connecting and creating the table, each batch's INSERT, the COMMIT,
      and the statistics query run once the seed is committed. `connectError` also stands for a
      failing `SELECT COUNT(*)` or `START TRANSACTION`: each throws before anything is written, with
      the same outcome. */
  datatype SetupOracle = SetupOracle(connectError: Option<Thrown>, batchErrors: seq<Option<Thrown>>, commitError: Option<Thrown>, statsError: Option<Thrown>)

  predicate AllSucceed(o: SetupOracle) {
    |o.batchErrors| == BatchCount && o.commitError.None?
    && forall b :: 0 <= b < BatchCount ==> o.batchErrors[b].None?
  }

  /** The `user_id_sequence` table as the script sees it. */
  class SequenceSeeder {
    var rows: seq<Slot>
    ghost var batches: seq<seq<nat>>

    constructor (rows: seq<Slot>)
      ensures this.rows == rows && batches == []
    {
      this.rows := rows;
      batches := [];
    }

    /** `setupUserIdSequence`. A non-empty table is left as it is; otherwise either every batch and
        the commit succeed and the table holds exactly the seed, or the transaction is rolled back
        and the error rethrown. A failing statistics query after the commit is rethrown too, but
        the committed seed stays. */
    method Setup(oracle: SetupOracle) returns (r: Result<(), Thrown>)
      requires |oracle.batchErrors| == BatchCount
      modifies this
      ensures oracle.connectError.Some? ==> r == Failure(oracle.connectError.value) && rows == old(rows)
      ensures oracle.connectError.None? && old(rows) != [] ==> r.Success? && rows == old(rows)
      ensures oracle.connectError.None? && old(rows) == [] ==>
        (r.Success? <==> AllSucceed(oracle) && oracle.statsError.None?)
        && (AllSucceed(oracle) ==> rows == Seed() && batches == old(batches) + seq(BatchCount, b requires 0 <= b => BatchNumbers(b)))
        && (AllSucceed(oracle) && oracle.statsError.Some? ==> r == Failure(oracle.statsError.value))
        && (!AllSucceed(oracle) ==> r.Failure? && rows == [])
    {
      if oracle.connectError.Some? {
        return Failure(oracle.connectError.value);
      }
      if |rows| > 0 {
        return Success(());
      }
      ghost var batches0 := batches;
      // START TRANSACTION
      var i := 1;
      while i <= LastNumber
        invariant 1 <= i <= LastNumber + BatchSize && (i - 1) % BatchSize == 0
        invariant rows == SeedRows(1, if i <= LastNumber then i else LastNumber + 1)
        invariant batches == batches0 + seq((i - 1) / BatchSize, b requires 0 <= b => BatchNumbers(b))
        invariant forall b :: 0 <= b < (i - 1) / BatchSize ==> oracle.batchErrors[b].None?
        decreases LastNumber + BatchSize - i
      {
        var values := BatchValues(i);
        var b := (i - 1) / BatchSize;
        BatchRound(i);
        if oracle.batchErrors[b].Some? {
          // ROLLBACK
          rows := [];
          return Failure(oracle.batchErrors[b].value);
        }
        BatchExtendsSeed(i, values);
        rows := rows + SlotsOf(values);
        batches := batches + [BatchNumbers(b)];
        i := i + BatchSize;
      }
      if oracle.commitError.Some? {
        // ROLLBACK
        rows := [];
        return Failure(oracle.commitError.value);
      }
      if oracle.statsError.Some? {
        // the seed is committed; the error reaches the outer catch and is rethrown
        return Failure(oracle.statsError.value);
      }
      r := Success(());
    }
  }
}
