/** The memo route src/app/api/memo/route.ts over the `memo` table: GET lists a user's memos newest
    first, POST stores trimmed non-blank content, DELETE removes a memo only for its owner. Each
    query either succeeds or throws, as the database decides; the table is the class's state. */
module MemoRoute {
  import opened Wrappers
  import opened Js

  /** A row of `memo`. `userId` is the text of the `user_id` column; `createdAt` orders the rows. */
  datatype Memo = Memo(id: nat, userId: string, content: string, createdAt: nat)

  /** The responses of the three handlers. */
  datatype MemoResponse =
    | Listed(memos: seq<Memo>)                  // 200, GET
    | Saved(id: nat, userId: Json, content: string)   // 200, POST
    | Deleted                                   // 200, DELETE
    | BadRequest(message: string)               // 400
    | NotFound                                  // 404, `Memo not found or unauthorized`
    | ServerError(message: string, error: string)   // 500, `success: false`

  function Status(r: MemoResponse): int {
    match r
    case Listed(_) => 200
    case Saved(_, _, _) => 200
    case Deleted => 200
    case BadRequest(_) => 400
    case NotFound => 404
    case ServerError(_, _) => 500
  }

  /** `searchParams.get(name)` is a string or `null`; `!value` also holds for the empty string. */
  predicate Present(param: Option<string>) {
    param.Some? && param.value != []
  }

  // ---------------------------------------------------------------------------
  // GET: the owner's rows, newest first

  function OwnRows(rows: seq<Memo>, userId: string): (r: seq<Memo>)
    ensures forall m :: m in r <==> m in rows && m.userId == userId
    ensures multiset(r) <= multiset(rows)
  {
    if rows == [] then []
    else
      var rest := OwnRows(rows[1..], userId);
      assert rows == [rows[0]] + rows[1..];
      if rows[0].userId == userId then [rows[0]] + rest else rest
  }

  predicate NewestFirst(ms: seq<Memo>) {
    forall i, j :: 0 <= i < j < |ms| ==> ms[i].createdAt >= ms[j].createdAt
  }

  /** Puts `m` into a newest-first list at its place. */
  function InsertByDate(m: Memo, ms: seq<Memo>): (r: seq<Memo>)
    requires NewestFirst(ms)
    ensures NewestFirst(r) && multiset(r) == multiset(ms) + multiset{m}
  {
    if ms == [] || ms[0].createdAt <= m.createdAt then
      ConsNewestFirst(m, ms);
      [m] + ms
    else
      var rest := InsertByDate(m, ms[1..]);
      assert ms == [ms[0]] + ms[1..];
      HeadDominates(ms, m, rest);
      ConsNewestFirst(ms[0], rest);
      [ms[0]] + rest
  }

  /** A memo no older than every memo of a newest-first list can go in front of it. */
  lemma ConsNewestFirst(m: Memo, ms: seq<Memo>)
    requires NewestFirst(ms)
    requires ms == [] || ms[0].createdAt <= m.createdAt || forall j :: 0 <= j < |ms| ==> ms[j].createdAt <= m.createdAt
    ensures NewestFirst([m] + ms)
  {
    var t := [m] + ms;
    forall i, j | 0 <= i < j < |t| ensures t[i].createdAt >= t[j].createdAt {
      assert t[j] == ms[j - 1];
      if i > 0 {
        assert t[i] == ms[i - 1];
      } else if ms != [] && ms[0].createdAt <= m.createdAt {
        assert ms[0].createdAt >= ms[j - 1].createdAt;
      }
    }
  }

  /** Inserting a later memo into the tail of a newest-first list keeps the head the newest. */
  lemma HeadDominates(ms: seq<Memo>, m: Memo, rest: seq<Memo>)
    requires NewestFirst(ms) && ms != [] && m.createdAt < ms[0].createdAt
    requires multiset(rest) == multiset(ms[1..]) + multiset{m}
    ensures forall j :: 0 <= j < |rest| ==> rest[j].createdAt <= ms[0].createdAt
  {
    forall j | 0 <= j < |rest| ensures rest[j].createdAt <= ms[0].createdAt {
      assert rest[j] in multiset(rest);
      if rest[j] != m {
        assert rest[j] in multiset(ms[1..]);
        var k :| 0 <= k < |ms[1..]| && ms[1..][k] == rest[j];
        assert ms[k + 1] == rest[j];
      }
    }
  }

  /** `ORDER BY created_at DESC`; rows with equal dates may come in any order, and this is one. */
  function SortNewestFirst(ms: seq<Memo>): (r: seq<Memo>)
    ensures NewestFirst(r) && multiset(r) == multiset(ms)
  {
    if ms == [] then []
    else
      assert ms == [ms[0]] + ms[1..];
      InsertByDate(ms[0], SortNewestFirst(ms[1..]))
  }

  /** GET on the table `rows`; `selectError` is what the SELECT threw, if anything. */
  function ListSpec(rows: seq<Memo>, userId: Option<string>, selectError: Option<Thrown>): (r: MemoResponse)
    ensures !Present(userId) <==> r == BadRequest("User ID is required")
    ensures Present(userId) && selectError.Some? <==> r.ServerError?
    ensures r.ServerError? ==> r == ServerError("Failed to fetch memos", MessageOr(selectError.value, "Unknown error"))
    ensures r.Listed? ==>
      NewestFirst(r.memos) && multiset(r.memos) == multiset(OwnRows(rows, userId.value))
      && forall m :: m in r.memos <==> m in rows && m.userId == userId.value
  {
    if !Present(userId) then BadRequest("User ID is required")
    else if selectError.Some? then ServerError("Failed to fetch memos", MessageOr(selectError.value, "Unknown error"))
    else
      var r := SortNewestFirst(OwnRows(rows, userId.value));
      assert forall m :: m in r <==> m in multiset(r);
      Listed(r)
  }

  // ---------------------------------------------------------------------------
  // POST: store trimmed content

  /** POST on a table whose next auto-increment id is `nextId`. `body` is what `request.json()`
      yields, `now` the database clock, `insertError` what the INSERT threw, if anything. The result
      is the new table, the new next id and the response. */
  function SaveSpec(rows: seq<Memo>, nextId: nat, body: Result<Json, Thrown>, now: nat, insertError: Option<Thrown>)
    : (seq<Memo>, nat, MemoResponse)
  {
    if body.Failure? then SaveFailed(rows, nextId, body.error)
    else match (Destructure(body.value, "userId", "body"), Destructure(body.value, "content", "body"))
      case (Failure(e), _) => SaveFailed(rows, nextId, e)
      case (_, Failure(e)) => SaveFailed(rows, nextId, e)
      case (Success(userId), Success(content)) => SaveFields(rows, nextId, userId, content, now, insertError)
  }

  /** POST once `userId` and `content` have been read from the body. */
  function SaveFields(rows: seq<Memo>, nextId: nat, userId: Option<Json>, content: Option<Json>, now: nat, insertError: Option<Thrown>)
    : (seq<Memo>, nat, MemoResponse)
  {
    if !TruthyOpt(userId) || !TruthyOpt(content) then (rows, nextId, BadRequest("User ID and content are required"))
    else if !content.value.JStr? then SaveFailed(rows, nextId, ErrorObject("content.trim is not a function"))
    else SaveContent(rows, nextId, userId.value, content.value.s, now, insertError)
  }

  /** The text the `user_id` column holds for the bound value: a string as it is, a number as its
      decimal text. */
  function UserIdColumn(userId: Json): string {
    JsString(userId)
  }

  /** POST once both fields are known to be present and the content is a string. */
  function SaveContent(rows: seq<Memo>, nextId: nat, userId: Json, content: string, now: nat, insertError: Option<Thrown>)
    : (seq<Memo>, nat, MemoResponse)
  {
    if Trim(content) == [] then (rows, nextId, BadRequest("Content cannot be empty"))
    else if insertError.Some? then SaveFailed(rows, nextId, insertError.value)
    else
      var memo := Memo(nextId, UserIdColumn(userId), Trim(content), now);
      (rows + [memo], nextId + 1, Saved(nextId, userId, Trim(content)))
  }

  function SaveFailed(rows: seq<Memo>, nextId: nat, e: Thrown): (seq<Memo>, nat, MemoResponse) {
    (rows, nextId, ServerError("Failed to save memo", MessageOr(e, "Unknown error")))
  }

  /** Every POST either appends the saved memo under the next id, or leaves table and counter alone. */
  predicate SaveShape(rows: seq<Memo>, nextId: nat, now: nat, o: (seq<Memo>, nat, MemoResponse)) {
    if o.2.Saved? then
      o.0 == rows + [Memo(nextId, UserIdColumn(o.2.userId), o.2.content, now)] && o.1 == nextId + 1 && o.2.id == nextId
    else o.0 == rows && o.1 == nextId
  }

  lemma SaveContentShape(rows: seq<Memo>, nextId: nat, userId: Json, content: string, now: nat, insertError: Option<Thrown>)
    ensures SaveShape(rows, nextId, now, SaveContent(rows, nextId, userId, content, now, insertError))
  {
  }

  lemma SaveOutcome(rows: seq<Memo>, nextId: nat, body: Result<Json, Thrown>, now: nat, insertError: Option<Thrown>)
    ensures SaveShape(rows, nextId, now, SaveSpec(rows, nextId, body, now, insertError))
  {
    if body.Success? {
      match (Destructure(body.value, "userId", "body"), Destructure(body.value, "content", "body"))
      case (Failure(e), _) =>
      case (_, Failure(e)) =>
      case (Success(userId), Success(content)) =>
        if TruthyOpt(userId) && TruthyOpt(content) && content.value.JStr? {
          SaveContentShape(rows, nextId, userId.value, content.value.s, now, insertError);
        }
    }
  }

  /** The body `{userId, content, …}` with a string content. */
  function SaveBody(userId: Json, content: string, rest: map<string, Json>): Json {
    JObj(rest["userId" := userId]["content" := JStr(content)])
  }

  /** Reading the two fields of such a body gives them back. */
  lemma SaveBodyFields(rows: seq<Memo>, nextId: nat, userId: Json, content: string, rest: map<string, Json>, now: nat, insertError: Option<Thrown>)
    ensures SaveSpec(rows, nextId, Success(SaveBody(userId, content, rest)), now, insertError)
      == SaveFields(rows, nextId, Some(userId), Some(JStr(content)), now, insertError)
  {
    var m := rest["userId" := userId]["content" := JStr(content)];
    assert "userId" != "content";
    assert "userId" in m && m["userId"] == userId;
    assert Get(SaveBody(userId, content, rest), "userId") == Success(Some(userId));
    assert Get(SaveBody(userId, content, rest), "content") == Success(Some(JStr(content)));
  }

  /** A `null` body fails the destructuring of `userId`, the first field named, with a 500 that
      carries the TypeError's text; nothing is inserted. */
  lemma SaveNullBody(rows: seq<Memo>, nextId: nat, now: nat, insertError: Option<Thrown>)
    ensures SaveSpec(rows, nextId, Success(JNull), now, insertError)
      == (rows, nextId, ServerError("Failed to save memo", "Cannot destructure property 'userId' of 'body' as it is null."))
  {
    SaveFailsOnFirstField(rows, nextId, JNull, now, insertError);
    NullUserIdText();
  }

  /** The TypeError of destructuring `userId` from a `null` body. */
  lemma NullUserIdText()
    ensures Destructure(JNull, "userId", "body") == Failure(ErrorObject("Cannot destructure property 'userId' of 'body' as it is null."))
  {
    UserIdTextFolds();
  }

  lemma UserIdTextFolds()
    ensures "Cannot destructure property '" + "userId" + "' of '" + "body" + "' as it is null."
      == "Cannot destructure property 'userId' of 'body' as it is null."
  {
  }

  /** A body whose `userId` cannot be read fails with that error. */
  lemma SaveFailsOnFirstField(rows: seq<Memo>, nextId: nat, body: Json, now: nat, insertError: Option<Thrown>)
    requires Destructure(body, "userId", "body").Failure?
    ensures SaveSpec(rows, nextId, Success(body), now, insertError) == SaveFailed(rows, nextId, Destructure(body, "userId", "body").error)
  {
  }

  /** A missing or blank field is a 400 and nothing is inserted. */
  lemma SaveRejectsBlank(rows: seq<Memo>, nextId: nat, userId: Json, content: string, rest: map<string, Json>, now: nat, insertError: Option<Thrown>)
    requires !Truthy(userId) || AllWhitespace(content)
    ensures var (rows', nextId', r) := SaveSpec(rows, nextId, Success(SaveBody(userId, content, rest)), now, insertError);
      rows' == rows && nextId' == nextId && r.BadRequest?
  {
    SaveBodyFields(rows, nextId, userId, content, rest, now, insertError);
    TrimEmptyIff(content);
  }

  /** Content with a non-blank character is stored trimmed, under the next id, at the end of the
      table, and the response echoes exactly what was stored; a failed INSERT changes nothing. */
  lemma SaveStoresTrimmed(rows: seq<Memo>, nextId: nat, userId: Json, content: string, rest: map<string, Json>, now: nat, insertError: Option<Thrown>)
    requires Truthy(userId) && !AllWhitespace(content)
    ensures var (rows', nextId', r) := SaveSpec(rows, nextId, Success(SaveBody(userId, content, rest)), now, insertError);
      (insertError.None? ==>
        rows' == rows + [Memo(nextId, UserIdColumn(userId), Trim(content), now)] && nextId' == nextId + 1
        && r == Saved(nextId, userId, Trim(content)) && Trim(content) != [])
      && (insertError.Some? ==>
        rows' == rows && nextId' == nextId && r == ServerError("Failed to save memo", MessageOr(insertError.value, "Unknown error")))
  {
    SaveBodyFields(rows, nextId, userId, content, rest, now, insertError);
    TrimEmptyIff(content);
  }

  /** A memo posted with a numeric `userId` is stored under that number's decimal text, so a later
      GET or DELETE naming the user by that text finds it. */
  lemma NumericUserIdFound(rows: seq<Memo>, nextId: nat, n: nat, content: string, rest: map<string, Json>, now: nat)
    requires n > 0 && !AllWhitespace(content)
    ensures var (rows', _, r) := SaveSpec(rows, nextId, Success(SaveBody(JNum(n), content, rest)), now, None);
      var memo := Memo(nextId, NatToString(n), Trim(content), now);
      r == Saved(nextId, JNum(n), Trim(content))
      && ListSpec(rows', Some(NatToString(n)), None).Listed?
      && memo in ListSpec(rows', Some(NatToString(n)), None).memos
      && DeleteSpec(rows', Some(NatToString(nextId)), Some(NatToString(n)), None).1 == Deleted
      && memo !in DeleteSpec(rows', Some(NatToString(nextId)), Some(NatToString(n)), None).0
  {
    var memo := Memo(nextId, NatToString(n), Trim(content), now);
    NumericUserIdSaved(rows, nextId, n, content, rest, now);
    var rows' := rows + [memo];
    assert memo in rows';
    OwnMemoListed(rows', NatToString(n), memo);
    OwnMemoDeleted(rows', NatToString(nextId), NatToString(n), memo);
  }

  lemma NumericUserIdSaved(rows: seq<Memo>, nextId: nat, n: nat, content: string, rest: map<string, Json>, now: nat)
    requires n > 0 && !AllWhitespace(content)
    ensures SaveSpec(rows, nextId, Success(SaveBody(JNum(n), content, rest)), now, None)
      == (rows + [Memo(nextId, NatToString(n), Trim(content), now)], nextId + 1, Saved(nextId, JNum(n), Trim(content)))
  {
    SaveStoresTrimmed(rows, nextId, JNum(n), content, rest, now, None);
    assert UserIdColumn(JNum(n)) == NatToString(n);
  }

  /** A GET naming a row's user lists that row. */
  lemma OwnMemoListed(rows: seq<Memo>, userId: string, memo: Memo)
    requires memo in rows && memo.userId == userId && userId != []
    ensures ListSpec(rows, Some(userId), None).Listed? && memo in ListSpec(rows, Some(userId), None).memos
  {
  }

  /** A DELETE naming a row's id and user removes it. */
  lemma OwnMemoDeleted(rows: seq<Memo>, memoId: string, userId: string, memo: Memo)
    requires memo in rows && Matches(memo, memoId, userId) && userId != []
    ensures DeleteSpec(rows, Some(memoId), Some(userId), None).1 == Deleted
    ensures memo !in DeleteSpec(rows, Some(memoId), Some(userId), None).0
  {
  }

  /** Only a successful POST changes the table, and then by exactly one row appended. */
  lemma SaveAppendsAtMostOne(rows: seq<Memo>, nextId: nat, body: Result<Json, Thrown>, now: nat, insertError: Option<Thrown>)
    ensures var (rows', nextId', r) := SaveSpec(rows, nextId, body, now, insertError);
      (r.Saved? <==> rows' != rows) && (r.Saved? ==> rows' == rows + [rows'[|rows|]] && |rows'| == |rows| + 1 && nextId' == nextId + 1)
      && (!r.Saved? ==> nextId' == nextId) && Status(r) != 404
  {
    SaveOutcome(rows, nextId, body, now, insertError);
    var (rows', nextId', r) := SaveSpec(rows, nextId, body, now, insertError);
    if r.Saved? {
      assert |rows'| == |rows| + 1;
    }
  }

  // ---------------------------------------------------------------------------
  // DELETE: only the owner's memo

  /** `id = ?` with the query string's id: its decimal digits denote the row's id. */
  predicate IdMatches(memoId: string, id: nat) {
    memoId != [] && AllDigits(memoId) && DecimalValue(memoId) == id
  }

  predicate Matches(m: Memo, memoId: string, userId: string) {
    IdMatches(memoId, m.id) && m.userId == userId
  }

  function RemoveMatching(rows: seq<Memo>, memoId: string, userId: string): (r: seq<Memo>)
    ensures |r| <= |rows| && (|r| == |rows| ==> r == rows)
    ensures forall m :: m in r <==> m in rows && !Matches(m, memoId, userId)
    ensures (forall m :: m in rows ==> !Matches(m, memoId, userId)) <==> r == rows
  {
    if rows == [] then []
    else
      var rest := RemoveMatching(rows[1..], memoId, userId);
      assert rows == [rows[0]] + rows[1..];
      if Matches(rows[0], memoId, userId) then rest else [rows[0]] + rest
  }

  /** DELETE; `deleteError` is what the DELETE threw, if anything. The result is the new table and
      the response. */
  function DeleteSpec(rows: seq<Memo>, memoId: Option<string>, userId: Option<string>, deleteError: Option<Thrown>)
    : (seq<Memo>, MemoResponse)
  {
    if !Present(memoId) || !Present(userId) then (rows, BadRequest("Memo ID and User ID are required"))
    else if deleteError.Some? then (rows, ServerError("Failed to delete memo", MessageOr(deleteError.value, "Unknown error")))
    else
      var rows' := RemoveMatching(rows, memoId.value, userId.value);
      if |rows'| == |rows| then (rows, NotFound) else (rows', Deleted)
  }

  /** DELETE removes exactly the rows with that id owned by that user; when there is none the
      answer is 404 and the table is unchanged; a missing parameter or a failed statement changes
      nothing. */
  lemma DeleteRemovesOnlyOwned(rows: seq<Memo>, memoId: Option<string>, userId: Option<string>, deleteError: Option<Thrown>)
    ensures var (rows', r) := DeleteSpec(rows, memoId, userId, deleteError);
      (!Present(memoId) || !Present(userId) ==> rows' == rows && Status(r) == 400)
      && (Present(memoId) && Present(userId) && deleteError.Some? ==> rows' == rows && Status(r) == 500)
      && (Present(memoId) && Present(userId) && deleteError.None? ==>
        (forall m :: m in rows' <==> m in rows && !Matches(m, memoId.value, userId.value))
        && (r == NotFound <==> forall m :: m in rows ==> !Matches(m, memoId.value, userId.value))
        && (r == NotFound || r == Deleted) && (r == NotFound ==> rows' == rows))
  {
  }

  /** Ids are unique and below the next auto-increment id. */
  predicate IdsValid(rows: seq<Memo>, nextId: nat) {
    (forall i :: 0 <= i < |rows| ==> rows[i].id < nextId)
    && forall i, j :: 0 <= i < j < |rows| ==> rows[i].id != rows[j].id
  }

  /** With unique ids, one DELETE removes at most one memo, and never another user's. */
  lemma DeleteRemovesAtMostOne(rows: seq<Memo>, nextId: nat, memoId: string, userId: string)
    requires IdsValid(rows, nextId)
    ensures |RemoveMatching(rows, memoId, userId)| >= |rows| - 1
    ensures forall m :: m in rows && m.userId != userId ==> m in RemoveMatching(rows, memoId, userId)
  {
    CountMatching(rows, nextId, memoId, userId);
  }

  lemma {:induction false} CountMatching(rows: seq<Memo>, nextId: nat, memoId: string, userId: string)
    requires IdsValid(rows, nextId)
    ensures |RemoveMatching(rows, memoId, userId)| >= |rows| - 1
  {
    if rows != [] {
      var tail := rows[1..];
      assert IdsValid(tail, nextId);
      if Matches(rows[0], memoId, userId) {
        forall k | 0 <= k < |tail| ensures !Matches(tail[k], memoId, userId) {
          assert tail[k] == rows[k + 1];
        }
        assert RemoveMatching(tail, memoId, userId) == tail;
      } else {
        CountMatching(tail, nextId, memoId, userId);
      }
    }
  }

  /** Inserting under the next id keeps ids unique. */
  lemma SaveKeepsIdsValid(rows: seq<Memo>, nextId: nat, body: Result<Json, Thrown>, now: nat, insertError: Option<Thrown>)
    requires IdsValid(rows, nextId)
    ensures var (rows', nextId', _) := SaveSpec(rows, nextId, body, now, insertError);
      IdsValid(rows', nextId')
  {
    SaveOutcome(rows, nextId, body, now, insertError);
    var o := SaveSpec(rows, nextId, body, now, insertError);
    if o.2.Saved? {
      SnocIdsValid(rows, nextId, Memo(nextId, UserIdColumn(o.2.userId), o.2.content, now));
    }
  }

  /** A row under the counter itself can be appended to a valid table once the counter moves on. */
  lemma SnocIdsValid(rows: seq<Memo>, nextId: nat, m: Memo)
    requires IdsValid(rows, nextId) && m.id == nextId
    ensures IdsValid(rows + [m], nextId + 1)
  {
    var t := rows + [m];
    forall i, j | 0 <= i < j < |t| ensures t[i].id != t[j].id {
      assert t[i] == rows[i];
      if j < |rows| {
        assert t[j] == rows[j];
      }
    }
  }

  /** A row whose id no row of a valid table has can be put in front of it. */
  lemma ConsIdsValid(m: Memo, rows: seq<Memo>, nextId: nat)
    requires IdsValid(rows, nextId) && m.id < nextId
    requires forall x :: x in rows ==> x.id != m.id
    ensures IdsValid([m] + rows, nextId)
  {
    var t := [m] + rows;
    forall i, j | 0 <= i < j < |t| ensures t[i].id != t[j].id {
      assert t[j] == rows[j - 1];
      if i > 0 {
        assert t[i] == rows[i - 1];
      } else {
        assert rows[j - 1] in rows;
      }
    }
  }

  /** In a valid table, no later row shares the first row's id. */
  lemma HeadIdFresh(rows: seq<Memo>, nextId: nat)
    requires IdsValid(rows, nextId) && rows != []
    ensures IdsValid(rows[1..], nextId)
    ensures forall x :: x in rows[1..] ==> x.id != rows[0].id
  {
    var tail := rows[1..];
    forall x | x in tail ensures x.id != rows[0].id {
      var k :| 0 <= k < |tail| && tail[k] == x;
      assert rows[k + 1] == x;
    }
  }

  /** Removing rows keeps ids unique. */
  lemma {:induction false} DeleteKeepsIdsValid(rows: seq<Memo>, nextId: nat, memoId: string, userId: string)
    requires IdsValid(rows, nextId)
    ensures IdsValid(RemoveMatching(rows, memoId, userId), nextId)
  {
    if rows != [] {
      var tail := rows[1..];
      HeadIdFresh(rows, nextId);
      DeleteKeepsIdsValid(tail, nextId, memoId, userId);
      var rest := RemoveMatching(tail, memoId, userId);
      if !Matches(rows[0], memoId, userId) {
        assert RemoveMatching(rows, memoId, userId) == [rows[0]] + rest;
        ConsIdsValid(rows[0], rest, nextId);
      }
    }
  }

  // ---------------------------------------------------------------------------
  // The table

  /** The `memo` table and its auto-increment counter. */
  class MemoTable {
    var rows: seq<Memo>
    var nextId: nat

    ghost predicate Valid()
      reads this
    {
      IdsValid(rows, nextId)
    }

    constructor ()
      ensures rows == [] && nextId == 1 && Valid()
    {
      rows := [];
      nextId := 1;
    }

    /** GET. */
    function List(userId: Option<string>, selectError: Option<Thrown>): (r: MemoResponse)
      reads this
      ensures r.Listed? ==> Present(userId) && NewestFirst(r.memos) && forall m :: m in r.memos <==> m in rows && m.userId == userId.value
      ensures Status(r) == 400 <==> !Present(userId)
    {
      ListSpec(rows, userId, selectError)
    }

    /** POST. */
    method Save(body: Result<Json, Thrown>, now: nat, insertError: Option<Thrown>) returns (r: MemoResponse)
      requires Valid()
      modifies this
      ensures Valid()
      ensures (rows, nextId, r) == SaveSpec(old(rows), old(nextId), body, now, insertError)
    {
      SaveKeepsIdsValid(rows, nextId, body, now, insertError);
      var o := SaveSpec(rows, nextId, body, now, insertError);
      rows, nextId, r := o.0, o.1, o.2;
    }

    /** DELETE. */
    method Delete(memoId: Option<string>, userId: Option<string>, deleteError: Option<Thrown>) returns (r: MemoResponse)
      requires Valid()
      modifies this
      ensures Valid() && nextId == old(nextId)
      ensures (rows, r) == DeleteSpec(old(rows), memoId, userId, deleteError)
    {
      if Present(memoId) && Present(userId) {
        DeleteKeepsIdsValid(rows, nextId, memoId.value, userId.value);
      }
      var o := DeleteSpec(rows, memoId, userId, deleteError);
      rows, r := o.0, o.1;
    }
  }
}
