/** The application-list repository (pkg/repository/postgres.go) over the
    `application_lists` table, whose statements (pkg/repository/constants.go)
    are applied to the table as the database would apply them. The table is
    the state of an ApplicationLists object; query answers the model cannot
    compute (a refused INSERT, the users query) are parameters. */
module Repository {
  import opened Common
  import opened SqlTypes

  /** A row of `application_lists`. */
  datatype ListRow = ListRow(userId: int, applicationId: int, position: int)

  /** The error ReorderApplicationList reports when the inserted item cannot be read back. */
  const NotAdded: string := "unable to add application to list"

  // ---- The statements of constants.go, as table updates ----

  /** The largest position of the user's rows, or None when the user has none. */
  function MaxPositionOf(t: seq<ListRow>, user: int): (r: Option<int>)
    ensures r.None? <==> forall i :: 0 <= i < |t| ==> t[i].userId != user
    ensures r.Some? ==> forall i :: 0 <= i < |t| && t[i].userId == user ==> t[i].position <= r.value
  {
    if t == [] then None
    else
      var m := MaxPositionOf(t[..|t| - 1], user);
      var last := t[|t| - 1];
      if last.userId != user then m
      else if m.None? || m.value < last.position then Some(last.position)
      else m
  }

  /** The maximum is attained: some row of the user sits at it. */
  lemma {:induction false} MaxPositionAttained(t: seq<ListRow>, user: int)
    requires MaxPositionOf(t, user).Some?
    ensures exists i :: 0 <= i < |t| && t[i].userId == user && t[i].position == MaxPositionOf(t, user).value
  {
    var n := |t| - 1;
    var m := MaxPositionOf(t[..n], user);
    if !(t[n].userId == user && (m.None? || m.value < t[n].position)) {
      MaxPositionAttained(t[..n], user);
      var i :| 0 <= i < n && t[..n][i].userId == user && t[..n][i].position == m.value;
      assert t[i] == t[..n][i];
    }
  }

  /** The answer to getMaxItems: SQL's MAX gives one row, holding NULL when
      the user has no rows. */
  function MaxQueryRows(t: seq<ListRow>, user: int): seq<seq<Value>>
  {
    var m := MaxPositionOf(t, user);
    [[if m.Some? then Int(m.value) else Nil]]
  }

  /** The answer to getApplicationListItem: the user's rows for the application, in table order. */
  function Matching(t: seq<ListRow>, user: int, app: int): (r: seq<ListRow>)
    ensures |r| == 0 <==> forall i :: 0 <= i < |t| ==> !(t[i].userId == user && t[i].applicationId == app)
    ensures forall j :: 0 <= j < |r| ==> r[j].userId == user && r[j].applicationId == app
  {
    if t == [] then []
    else
      var rest := Matching(t[..|t| - 1], user, app);
      var last := t[|t| - 1];
      if last.userId == user && last.applicationId == app then rest + [last] else rest
  }

  /** Every match is a row of the table. */
  lemma {:induction false} MatchingIn(t: seq<ListRow>, user: int, app: int, j: nat)
    requires j < |Matching(t, user, app)|
    ensures Matching(t, user, app)[j] in t
  {
    var n := |t| - 1;
    var rest := Matching(t[..n], user, app);
    if j < |rest| {
      MatchingIn(t[..n], user, app, j);
      assert rest[j] in t[..n];
    }
  }

  /** setApplicationListItemPosition: the user's rows at position `from` move
      to `to`; the application id is not consulted. */
  function SetPositionRows(t: seq<ListRow>, to: int, from: int, user: int): (r: seq<ListRow>)
    ensures |r| == |t|
  {
    seq(|t|, i requires 0 <= i < |t| =>
      if t[i].position == from && t[i].userId == user then t[i].(position := to) else t[i])
  }

  /** Whose rows a shift statement touches: the source's `user_id = user_id`
      holds for every row; the evidently intended filter names the caller. */
  datatype ShiftScope = EveryUser | CallerOnly(user: int)

  predicate InScope(r: ListRow, scope: ShiftScope)
  {
    scope.EveryUser? || r.userId == scope.user
  }

  /** shiftApplicationListItemsDown: rows with from < position <= to move one place down. */
  function ShiftDownRows(t: seq<ListRow>, from: int, to: int, scope: ShiftScope): (r: seq<ListRow>)
    ensures |r| == |t|
  {
    seq(|t|, i requires 0 <= i < |t| =>
      if from < t[i].position <= to && InScope(t[i], scope) then t[i].(position := t[i].position - 1) else t[i])
  }

  /** shiftApplicationListItemsUp: rows with from <= position < to move one place up. */
  function ShiftUpRows(t: seq<ListRow>, from: int, to: int, scope: ShiftScope): (r: seq<ListRow>)
    ensures |r| == |t|
  {
    seq(|t|, i requires 0 <= i < |t| =>
      if from <= t[i].position < to && InScope(t[i], scope) then t[i].(position := t[i].position + 1) else t[i])
  }

  // ---- ReorderApplicationList, as a function of the table ----

  /** What ReorderApplicationList leaves behind: the table and the error it returns. */
  datatype Outcome = Outcome(rows: seq<ListRow>, err: Option<string>)

  /** Steps 1-3: the table after the possible INSERT, and the clamped desired position. */
  datatype Prepared = Prepared(rows: seq<ListRow>, desired: int)

  /** The max position as the code reads it: NULL leaves the initial 0 in place. */
  function MaxPosition(t: seq<ListRow>, user: int): int
  {
    var m := MaxPositionOf(t, user);
    if m.Some? then m.value else 0
  }

  function Prepare(t: seq<ListRow>, user: int, app: int, desired: int, insertAccepted: bool): Prepared
  {
    var m := MaxPosition(t, user);
    if |Matching(t, user, app)| == 0 then
      Prepared(if insertAccepted then t + [ListRow(user, app, m + 1)] else t,
               if desired > m + 1 then m + 1 else desired)
    else
      Prepared(t, if desired > m then m else desired)
  }

  /** Steps 4-6: park the item at 0, shift the rows between, set the item to `d`. */
  function Relocate(t: seq<ListRow>, user: int, p: int, d: int, scope: ShiftScope): seq<ListRow>
  {
    var parked := SetPositionRows(t, 0, p, user);
    var shifted := if d > p then ShiftDownRows(parked, p, d, scope) else ShiftUpRows(parked, d, p, scope);
    SetPositionRows(shifted, d, 0, user)
  }

  function ReorderIn(t: seq<ListRow>, user: int, app: int, desired: int, insertAccepted: bool, scope: ShiftScope): Outcome
  {
    var pr := Prepare(t, user, app, desired, insertAccepted);
    var found := Matching(pr.rows, user, app);
    if |found| == 0 then Outcome(pr.rows, Some(NotAdded))
    else if found[0].position == pr.desired then Outcome(pr.rows, None)
    else Outcome(Relocate(pr.rows, found[0].userId, found[0].position, pr.desired, scope), None)
  }

  /** ReorderApplicationList as written: the shifts reach every user's rows. */
  function Reorder(t: seq<ListRow>, user: int, app: int, desired: int, insertAccepted: bool): Outcome
  {
    ReorderIn(t, user, app, desired, insertAccepted, EveryUser)
  }

  /** The same steps with the shifts restricted to the caller's rows. */
  function ReorderIntended(t: seq<ListRow>, user: int, app: int, desired: int, insertAccepted: bool): Outcome
  {
    ReorderIn(t, user, app, desired, insertAccepted, CallerOnly(user))
  }

  // ---- The table as the repository changes it ----

  /** The `application_lists` table behind the repository. */
  class ApplicationLists {
    var rows: seq<ListRow>

    constructor (initial: seq<ListRow>)
      ensures rows == initial
    {
      rows := initial;
    }

    /** getMaxItems followed by Unmarshal into a zero maxPosition; a NULL
        maximum leaves the zero in place. */
    method QueryMaxPosition(user: int) returns (maxPosition: int)
      ensures maxPosition == MaxPosition(rows, user)
    {
      maxPosition := 0;
      var values := MaxQueryRows(rows, user);
      if |values| != 0 {
        var scanned := Unmarshal(values[0], [Int(maxPosition)]);
        if scanned.Ok? && scanned.value[0].Int? {
          maxPosition := scanned.value[0].i;
        }
      }
    }

    method QueryItem(user: int, app: int) returns (found: seq<ListRow>)
      ensures found == Matching(rows, user, app)
    {
      found := Matching(rows, user, app);
    }

    /** insertApplicationInList; `accepted` is whether the database takes the row. */
    method InsertItem(user: int, app: int, position: int, accepted: bool)
      modifies this
      ensures rows == if accepted then old(rows) + [ListRow(user, app, position)] else old(rows)
    {
      if accepted {
        rows := rows + [ListRow(user, app, position)];
      }
    }

    method SetItemPosition(to: int, from: int, user: int)
      modifies this
      ensures rows == SetPositionRows(old(rows), to, from, user)
    {
      rows := SetPositionRows(rows, to, from, user);
    }

    method ShiftItemsDown(from: int, to: int)
      modifies this
      ensures rows == ShiftDownRows(old(rows), from, to, EveryUser)
    {
      rows := ShiftDownRows(rows, from, to, EveryUser);
    }

    method ShiftItemsUp(from: int, to: int)
      modifies this
      ensures rows == ShiftUpRows(old(rows), from, to, EveryUser)
    {
      rows := ShiftUpRows(rows, from, to, EveryUser);
    }

    /** Steps 1-3 of ReorderApplicationList: the max position, the lookup,
        the INSERT at max+1 of an item not yet listed and its lookup again,
        and the clamp of the desired position. */
    method PrepareItem(user: int, app: int, desiredPosition: int, insertAccepted: bool)
      returns (found: seq<ListRow>, desired: int)
      modifies this
      ensures Prepared(rows, desired) == Prepare(old(rows), user, app, desiredPosition, insertAccepted)
      ensures found == Matching(rows, user, app)
    {
      var maxPosition := QueryMaxPosition(user);
      desired := desiredPosition;
      found := QueryItem(user, app);
      if |found| == 0 {
        InsertItem(user, app, maxPosition + 1, insertAccepted);
        found := QueryItem(user, app);
        if desired > maxPosition + 1 {
          desired := maxPosition + 1;
        }
      } else {
        if desired > maxPosition {
          desired := maxPosition;
        }
      }
    }

    /** Steps 4-6: park the item at 0, shift the rows between, set the item
        to its new position; nothing runs when it is already there. */
    method MoveItem(item: ListRow, desired: int)
      modifies this
      ensures rows == if item.position == desired then old(rows)
                      else Relocate(old(rows), item.userId, item.position, desired, EveryUser)
    {
      if item.position != desired {
        SetItemPosition(0, item.position, item.userId);
        if desired > item.position {
          ShiftItemsDown(item.position, desired);
        } else {
          ShiftItemsUp(desired, item.position);
        }
        SetItemPosition(desired, 0, item.userId);
      }
    }

    /** ReorderApplicationList: every statement failure is ignored; the only
        error is the item missing after its INSERT (in the other branch the
        lookup found it already). */
    method ReorderApplicationList(user: int, app: int, desiredPosition: int, insertAccepted: bool)
      returns (err: Option<string>)
      modifies this
      ensures Outcome(rows, err) == Reorder(old(rows), user, app, desiredPosition, insertAccepted)
    {
      var found, desired := PrepareItem(user, app, desiredPosition, insertAccepted);
      if |found| == 0 {
        return Some(NotAdded);
      }
      MoveItem(found[0], desired);
      return None;
    }
  }

  // ---- What a reorder does to each row ----

  /** Where a row at `pos` ends up when the item moves from p to d: the rows
      between close the gap the item leaves and open the one it takes. */
  function Moved(pos: int, p: int, d: int): int
  {
    if p < d && p < pos <= d then pos - 1
    else if d < p && d <= pos < p then pos + 1
    else pos
  }

  /** The item (the user's row at p) lands on d; a row in the shift's scope
      moves by Moved; any other row stays. */
  function MovedRow(r: ListRow, user: int, p: int, d: int, scope: ShiftScope): ListRow
  {
    if r.userId == user && r.position == p then r.(position := d)
    else if InScope(r, scope) then r.(position := Moved(r.position, p, d))
    else r
  }

  function MovedRows(t: seq<ListRow>, user: int, p: int, d: int, scope: ShiftScope): (r: seq<ListRow>)
    ensures |r| == |t|
  {
    seq(|t|, i requires 0 <= i < |t| => MovedRow(t[i], user, p, d, scope))
  }

  /** Every row of the user is at a position of at least 1. */
  predicate PositionsPositive(t: seq<ListRow>, user: int)
  {
    forall i :: 0 <= i < |t| && t[i].userId == user ==> t[i].position >= 1
  }

  /** The three statements of a move, row by row, when the user has no row
      at the parking position 0 and both ends of the move are positive. */
  lemma RelocateMovesRows(t: seq<ListRow>, user: int, p: int, d: int, scope: ShiftScope)
    requires PositionsPositive(t, user) && p >= 1 && d >= 1
    requires scope.EveryUser? || scope.user == user
    ensures Relocate(t, user, p, d, scope) == MovedRows(t, user, p, d, scope)
  {
    var parked := SetPositionRows(t, 0, p, user);
    var shifted := if d > p then ShiftDownRows(parked, p, d, scope) else ShiftUpRows(parked, d, p, scope);
    forall i | 0 <= i < |t|
      ensures Relocate(t, user, p, d, scope)[i] == MovedRows(t, user, p, d, scope)[i]
    {
      var r := t[i];
      if r.userId == user && r.position == p {
        assert parked[i].position == 0;
        assert shifted[i] == parked[i];
      } else {
        assert parked[i] == r;
        assert r.userId == user ==> shifted[i].position != 0;
      }
    }
  }

  /** Every row the shifts can reach is at a position of at least 1. */
  predicate ScopePositive(t: seq<ListRow>, scope: ShiftScope)
  {
    forall i :: 0 <= i < |t| && InScope(t[i], scope) ==> t[i].position >= 1
  }

  lemma ScopePositiveUser(t: seq<ListRow>, user: int, scope: ShiftScope)
    requires ScopePositive(t, scope) && (scope.EveryUser? || scope.user == user)
    ensures PositionsPositive(t, user)
  {
    forall i | 0 <= i < |t| && t[i].userId == user
      ensures t[i].position >= 1
    {
      assert InScope(t[i], scope);
    }
  }

  /** A desired position of 0 or below: the parked item is caught by the
      upward shift and left at 1, so the statements move it exactly as a
      move to 1 would. */
  lemma RelocateBelowOne(t: seq<ListRow>, user: int, p: int, d: int, scope: ShiftScope)
    requires ScopePositive(t, scope) && p >= 1 && d <= 0
    requires scope.EveryUser? || scope.user == user
    ensures Relocate(t, user, p, d, scope) == MovedRows(t, user, p, 1, scope)
  {
    var parked := SetPositionRows(t, 0, p, user);
    var shifted := ShiftUpRows(parked, d, p, scope);
    forall i | 0 <= i < |t|
      ensures Relocate(t, user, p, d, scope)[i] == MovedRows(t, user, p, 1, scope)[i]
    {
      var r := t[i];
      if r.userId == user && r.position == p {
        assert parked[i].position == 0;
        assert shifted[i].position == 1;
      } else {
        assert parked[i] == r;
        if InScope(r, scope) {
          assert r.position >= 1;
        }
        assert r.userId == user ==> shifted[i].position != 0;
      }
    }
  }

  /** Steps 4-6 for a desired position of 0 or below do what they do for 1. */
  lemma MoveBelowOne(rows: seq<ListRow>, user: int, p: int, desired: int, scope: ShiftScope)
    requires ScopePositive(rows, scope) && p >= 1 && desired <= 0
    requires scope.EveryUser? || scope.user == user
    ensures (if p == desired then rows else Relocate(rows, user, p, desired, scope))
         == (if p == 1 then rows else Relocate(rows, user, p, 1, scope))
  {
    RelocateBelowOne(rows, user, p, desired, scope);
    if p == 1 {
      MovedRowsInPlace(rows, user, 1, scope);
    } else {
      ScopePositiveUser(rows, user, scope);
      RelocateMovesRows(rows, user, p, 1, scope);
    }
  }

  /** The move of an item to its own position changes nothing. */
  lemma MovedRowsInPlace(t: seq<ListRow>, user: int, p: int, scope: ShiftScope)
    ensures MovedRows(t, user, p, p, scope) == t
  {
  }

  /** Once steps 1-3 leave `rows` and `d` and find `item`, steps 4-6 move the
      rows by MovedRows. */
  lemma ReorderInMoves(t: seq<ListRow>, user: int, app: int, desired: int, insertAccepted: bool, scope: ShiftScope,
                       rows: seq<ListRow>, d: int, item: ListRow)
    requires scope.EveryUser? || scope.user == user
    requires Prepare(t, user, app, desired, insertAccepted) == Prepared(rows, d)
    requires |Matching(rows, user, app)| > 0 && Matching(rows, user, app)[0] == item
    requires PositionsPositive(rows, user) && d >= 1
    ensures ReorderIn(t, user, app, desired, insertAccepted, scope) == Outcome(MovedRows(rows, user, item.position, d, scope), None)
  {
    MatchingIn(rows, user, app, 0);
    if item.position == d {
      MovedRowsInPlace(rows, user, d, scope);
    } else {
      RelocateMovesRows(rows, user, item.position, d, scope);
    }
  }

  /** Moving an item already in the list: it lands on the desired position
      clamped to the user's maximum, and every row between its old and new
      place, whoever it belongs to, moves one step towards the gap. */
  lemma ReorderExisting(t: seq<ListRow>, user: int, app: int, desired: int, insertAccepted: bool)
    requires |Matching(t, user, app)| > 0
    requires PositionsPositive(t, user) && desired >= 1
    ensures var p := Matching(t, user, app)[0].position;
            var m := MaxPosition(t, user);
            Reorder(t, user, app, desired, insertAccepted)
              == Outcome(MovedRows(t, user, p, if desired > m then m else desired, EveryUser), None)
  {
    var m := MaxPosition(t, user);
    ReorderInMoves(t, user, app, desired, insertAccepted, EveryUser, t, if desired > m then m else desired,
                   Matching(t, user, app)[0]);
  }

  lemma MatchingAppend(t: seq<ListRow>, r: ListRow, user: int, app: int)
    requires |Matching(t, user, app)| == 0 && r.userId == user && r.applicationId == app
    ensures Matching(t + [r], user, app) == [r]
  {
    assert (t + [r])[..|t|] == t;
  }

  lemma MovedRowsAppend(t: seq<ListRow>, r: ListRow, user: int, p: int, d: int, scope: ShiftScope)
    ensures MovedRows(t + [r], user, p, d, scope) == MovedRows(t, user, p, d, scope) + [MovedRow(r, user, p, d, scope)]
  {
  }

  /** A user whose rows are all positive has a non-negative max position. */
  lemma MaxPositionNonNegative(t: seq<ListRow>, user: int)
    requires PositionsPositive(t, user)
    ensures MaxPosition(t, user) >= 0
  {
    var mo := MaxPositionOf(t, user);
    if mo.Some? {
      MaxPositionAttained(t, user);
      var i :| 0 <= i < |t| && t[i].userId == user && t[i].position == mo.value;
    }
  }

  lemma PositionsPositiveAppend(t: seq<ListRow>, r: ListRow, user: int)
    requires PositionsPositive(t, user) && r.position >= 1
    ensures PositionsPositive(t + [r], user)
  {
    forall i | 0 <= i < |t + [r]| && (t + [r])[i].userId == user
      ensures (t + [r])[i].position >= 1
    {
      if i < |t| {
        assert (t + [r])[i] == t[i];
      }
    }
  }

  /** Steps 1-3 for an item not yet listed and an accepted INSERT. */
  lemma PrepareNew(t: seq<ListRow>, user: int, app: int, desired: int)
    requires |Matching(t, user, app)| == 0
    ensures var m := MaxPosition(t, user);
            Prepare(t, user, app, desired, true)
              == Prepared(t + [ListRow(user, app, m + 1)], if desired > m + 1 then m + 1 else desired)
  {
  }

  /** Steps 1-3 for an item not yet listed and an accepted INSERT: the item
      is appended at max+1 and found there, the desired position is clamped
      to max+1, and the user's positions stay positive. */
  lemma NewItemPrepared(t: seq<ListRow>, user: int, app: int, desired: int)
    requires |Matching(t, user, app)| == 0
    requires PositionsPositive(t, user) && desired >= 1
    ensures var m := MaxPosition(t, user);
            var added := ListRow(user, app, m + 1);
            var d := if desired > m + 1 then m + 1 else desired;
            && Prepare(t, user, app, desired, true) == Prepared(t + [added], d)
            && |Matching(t + [added], user, app)| > 0 && Matching(t + [added], user, app)[0] == added
            && PositionsPositive(t + [added], user) && d >= 1
  {
    var added := ListRow(user, app, MaxPosition(t, user) + 1);
    PrepareNew(t, user, app, desired);
    MaxPositionNonNegative(t, user);
    MatchingAppend(t, added, user, app);
    PositionsPositiveAppend(t, added, user);
  }

  /** A new item is appended at max+1, found again, and moved from there. */
  lemma ReorderNewMovesAppended(t: seq<ListRow>, user: int, app: int, desired: int)
    requires |Matching(t, user, app)| == 0
    requires PositionsPositive(t, user) && desired >= 1
    ensures var m := MaxPosition(t, user);
            var d := if desired > m + 1 then m + 1 else desired;
            Reorder(t, user, app, desired, true)
              == Outcome(MovedRows(t + [ListRow(user, app, m + 1)], user, m + 1, d, EveryUser), None)
  {
    var m := MaxPosition(t, user);
    var d := if desired > m + 1 then m + 1 else desired;
    var added := ListRow(user, app, m + 1);
    NewItemPrepared(t, user, app, desired);
    ReorderInMoves(t, user, app, desired, true, EveryUser, t + [added], d, added);
  }

  /** Adding an item that is not in the list: it is appended at max+1 and then
      moved to the desired position clamped to max+1. */
  lemma ReorderNew(t: seq<ListRow>, user: int, app: int, desired: int)
    requires |Matching(t, user, app)| == 0
    requires PositionsPositive(t, user) && desired >= 1
    ensures var m := MaxPosition(t, user);
            var d := if desired > m + 1 then m + 1 else desired;
            Reorder(t, user, app, desired, true)
              == Outcome(MovedRows(t, user, m + 1, d, EveryUser) + [ListRow(user, app, d)], None)
  {
    var m := MaxPosition(t, user);
    var d := if desired > m + 1 then m + 1 else desired;
    ReorderNewMovesAppended(t, user, app, desired);
    MovedRowsAppend(t, ListRow(user, app, m + 1), user, m + 1, d, EveryUser);
  }

  lemma ScopePositiveAppend(t: seq<ListRow>, r: ListRow, scope: ShiftScope)
    requires ScopePositive(t, scope) && r.position >= 1
    ensures ScopePositive(t + [r], scope)
  {
    forall i | 0 <= i < |t + [r]| && InScope((t + [r])[i], scope)
      ensures (t + [r])[i].position >= 1
    {
      if i < |t| {
        assert (t + [r])[i] == t[i];
      }
    }
  }

  /** The rows found for an item sit at a position of at least 1, and so
      does the user's maximum. */
  lemma FoundPositive(t: seq<ListRow>, user: int, app: int, scope: ShiftScope)
    requires ScopePositive(t, scope) && (scope.EveryUser? || scope.user == user)
    requires |Matching(t, user, app)| > 0
    ensures Matching(t, user, app)[0].position >= 1
    ensures MaxPosition(t, user) >= Matching(t, user, app)[0].position
  {
    var item := Matching(t, user, app)[0];
    MatchingIn(t, user, app, 0);
    var k :| 0 <= k < |t| && t[k] == item;
    assert InScope(t[k], scope);
  }

  /** A desired position of 0 or below (Go's zero value when the request
      leaves it out) has the effect of 1, whenever the rows the shifts reach
      are all at 1 or above. */
  lemma ReorderBelowOne(t: seq<ListRow>, user: int, app: int, desired: int, insertAccepted: bool, scope: ShiftScope)
    requires ScopePositive(t, scope) && (scope.EveryUser? || scope.user == user)
    requires desired <= 0
    ensures ReorderIn(t, user, app, desired, insertAccepted, scope) == ReorderIn(t, user, app, 1, insertAccepted, scope)
  {
    var m := MaxPosition(t, user);
    var pr := Prepare(t, user, app, desired, insertAccepted);
    var pr1 := Prepare(t, user, app, 1, insertAccepted);
    ScopePositiveUser(t, user, scope);
    if |Matching(t, user, app)| > 0 {
      FoundPositive(t, user, app, scope);
      assert pr == Prepared(t, desired) && pr1 == Prepared(t, 1);
      MoveBelowOne(t, user, Matching(t, user, app)[0].position, desired, scope);
    } else if insertAccepted {
      var added := ListRow(user, app, m + 1);
      MaxPositionNonNegative(t, user);
      PrepareNew(t, user, app, desired);
      PrepareNew(t, user, app, 1);
      MatchingAppend(t, added, user, app);
      ScopePositiveAppend(t, added, scope);
      MoveBelowOne(t + [added], user, m + 1, desired, scope);
    }
  }

  /** A reorder moves rows by MovedRows to a position of at least 1. */
  lemma MovedRowsPositive(t: seq<ListRow>, user: int, p: int, d: int, scope: ShiftScope)
    requires ScopePositive(t, scope) && (scope.EveryUser? || scope.user == user)
    requires p >= 1 && d >= 1
    ensures ScopePositive(MovedRows(t, user, p, d, scope), scope)
  {
    var r := MovedRows(t, user, p, d, scope);
    forall i | 0 <= i < |r| && InScope(r[i], scope)
      ensures r[i].position >= 1
    {
      assert InScope(t[i], scope);
    }
  }

  lemma ExistingKeepsPositive(t: seq<ListRow>, user: int, app: int, desired: int, insertAccepted: bool)
    requires ScopePositive(t, EveryUser) && |Matching(t, user, app)| > 0 && desired >= 1
    ensures ScopePositive(Reorder(t, user, app, desired, insertAccepted).rows, EveryUser)
  {
    var m := MaxPosition(t, user);
    ScopePositiveUser(t, user, EveryUser);
    FoundPositive(t, user, app, EveryUser);
    ReorderExisting(t, user, app, desired, insertAccepted);
    MovedRowsPositive(t, user, Matching(t, user, app)[0].position, if desired > m then m else desired, EveryUser);
  }

  lemma NewKeepsPositive(t: seq<ListRow>, user: int, app: int, desired: int)
    requires ScopePositive(t, EveryUser) && |Matching(t, user, app)| == 0 && desired >= 1
    ensures ScopePositive(Reorder(t, user, app, desired, true).rows, EveryUser)
  {
    var m := MaxPosition(t, user);
    var added := ListRow(user, app, m + 1);
    ScopePositiveUser(t, user, EveryUser);
    MaxPositionNonNegative(t, user);
    ScopePositiveAppend(t, added, EveryUser);
    ReorderNewMovesAppended(t, user, app, desired);
    MovedRowsPositive(t + [added], user, m + 1, if desired > m + 1 then m + 1 else desired, EveryUser);
  }

  /** Positions stay at 1 or above: the INSERT writes max+1, and a reorder of
      a table whose rows are all at 1 or above leaves them there. */
  lemma ReorderKeepsPositive(t: seq<ListRow>, user: int, app: int, desired: int, insertAccepted: bool)
    requires ScopePositive(t, EveryUser)
    ensures ScopePositive(Reorder(t, user, app, desired, insertAccepted).rows, EveryUser)
  {
    var d1 := if desired <= 0 then 1 else desired;
    if desired <= 0 {
      ReorderBelowOne(t, user, app, desired, insertAccepted, EveryUser);
    }
    if |Matching(t, user, app)| > 0 {
      ExistingKeepsPositive(t, user, app, d1, insertAccepted);
    } else if insertAccepted {
      NewKeepsPositive(t, user, app, d1);
    } else {
      ReorderRefused(t, user, app, desired);
    }
  }

  /** A refused INSERT leaves the table as it was and reports the item missing. */
  lemma ReorderRefused(t: seq<ListRow>, user: int, app: int, desired: int)
    requires |Matching(t, user, app)| == 0
    ensures Reorder(t, user, app, desired, false) == Outcome(t, Some(NotAdded))
  {
  }

  /** When the item already sits at the clamped position, no UPDATE runs. */
  lemma ReorderInPlace(t: seq<ListRow>, user: int, app: int, desired: int, insertAccepted: bool)
    requires |Matching(t, user, app)| > 0
    requires Matching(t, user, app)[0].position == (if desired > MaxPosition(t, user) then MaxPosition(t, user) else desired)
    ensures Reorder(t, user, app, desired, insertAccepted) == Outcome(t, None)
  {
  }

  // ---- The shift reaches other users ----

  /** User 1 moves application 11 from position 2 to 1; user 2's only row,
      at position 1, is pushed to 2. */
  lemma ReorderShiftsOtherUsers()
    ensures Reorder([ListRow(1, 10, 1), ListRow(1, 11, 2), ListRow(2, 20, 1)], 1, 11, 1, true).rows
         == [ListRow(1, 10, 2), ListRow(1, 11, 1), ListRow(2, 20, 2)]
  {
    var t := [ListRow(1, 10, 1), ListRow(1, 11, 2), ListRow(2, 20, 1)];
    assert t[..2][..1][..0] == [];
    assert Matching(t, 1, 11) == [ListRow(1, 11, 2)];
    assert MaxPositionOf(t, 1) == Some(2);
    RelocateMovesRows(t, 1, 2, 1, EveryUser);
  }

  /** With the shifts restricted to the caller, no other user's row changes. */
  lemma ReorderIntendedKeepsOthers(t: seq<ListRow>, user: int, app: int, desired: int, insertAccepted: bool, i: nat)
    requires i < |t| && t[i].userId != user
    ensures var o := ReorderIntended(t, user, app, desired, insertAccepted);
            i < |o.rows| && o.rows[i] == t[i]
  {
    var pr := Prepare(t, user, app, desired, insertAccepted);
    assert pr.rows[i] == t[i];
  }

  /** The intended version moves the caller's rows exactly as the source does. */
  lemma ReorderIntendedExisting(t: seq<ListRow>, user: int, app: int, desired: int, insertAccepted: bool)
    requires |Matching(t, user, app)| > 0
    requires PositionsPositive(t, user) && desired >= 1
    ensures var p := Matching(t, user, app)[0].position;
            var m := MaxPosition(t, user);
            ReorderIntended(t, user, app, desired, insertAccepted)
              == Outcome(MovedRows(t, user, p, if desired > m then m else desired, CallerOnly(user)), None)
  {
    var m := MaxPosition(t, user);
    ReorderInMoves(t, user, app, desired, insertAccepted, CallerOnly(user), t, if desired > m then m else desired,
                   Matching(t, user, app)[0]);
  }

  // ---- GetAllUsers ----

  /** A user as Unmarshal fills it: the id and the name columns, starting
      from the zero values. */
  datatype User = User(id: Value, name: Value)

  /** The users of a result set: one per row, in row order; a row that does
      not have exactly two columns fails the whole read. */
  function UsersOf(rows: seq<seq<Value>>): (r: Result<seq<User>>)
    ensures r.Ok? <==> forall i :: 0 <= i < |rows| ==> |rows[i]| == 2
    ensures r.Err? ==> r.error == ShapeMismatch
    ensures r.Ok? ==> |r.value| == |rows|
    ensures r.Ok? ==> forall i :: 0 <= i < |rows| ==>
      r.value[i].id == (if rows[i][0] == Nil then Int(0) else rows[i][0]) &&
      r.value[i].name == (if rows[i][1] == Nil then Str("") else rows[i][1])
  {
    if rows == [] then Ok([])
    else
      var init := UsersOf(rows[..|rows| - 1]);
      var scanned := Unmarshal(rows[|rows| - 1], [Int(0), Str("")]);
      if init.Err? then init
      else if scanned.Err? then Err(scanned.error)
      else Ok(init.value + [User(scanned.value[0], scanned.value[1])])
  }

  /** GetAllUsers: a failed query is passed on; no rows give nil (the empty
      list here); otherwise each row is scanned into a new user. */
  method GetAllUsers(query: Result<seq<seq<Value>>>) returns (r: Result<seq<User>>)
    ensures query.Err? ==> r == Err(query.error)
    ensures query.Ok? ==> r == UsersOf(query.value)
  {
    if query.Err? {
      return Err(query.error);
    }
    var rows := query.value;
    if |rows| == 0 {
      return Ok([]);
    }
    var users: seq<User> := [];
    var i := 0;
    while i < |rows|
      invariant 0 <= i <= |rows|
      invariant UsersOf(rows[..i]) == Ok(users)
    {
      assert rows[..i + 1][..i] == rows[..i];
      var scanned := Unmarshal(rows[i], [Int(0), Str("")]);
      if scanned.Err? {
        assert UsersOf(rows[..i + 1]).Err?;
        UsersOfFails(rows, i + 1);
        return Err(scanned.error);
      }
      users := users + [User(scanned.value[0], scanned.value[1])];
      i := i + 1;
    }
    assert rows[..i] == rows;
    r := Ok(users);
  }

  /** A failing prefix makes the whole read fail with the same error. */
  lemma UsersOfFails(rows: seq<seq<Value>>, k: nat)
    requires k <= |rows| && UsersOf(rows[..k]).Err?
    ensures UsersOf(rows) == UsersOf(rows[..k])
  {
    assert exists i :: 0 <= i < k && |rows[..k][i]| != 2;
  }
}
