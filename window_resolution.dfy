/**
 * The id arithmetic at the start of `composeAndSendCallLogVcards`,
 * `composeAndSendPhonebookVcards` and `composeAndSendPhonebookOneVcard`:
 * a 1-based window `[startPoint, endPoint]` (or one `offset`) over the rows
 * of a query becomes a selection on `_ID`.
 *
 * The query result is given as `ids: Option<seq<int>>`: the `_ID` column in
 * the query's sort order, or `None` when the resolver returned no cursor or
 * threw `CursorWindowAllocationException`, in which case the ids the code
 * looks up keep their initial value 0.
 */
module WindowResolution {
  import opened Wrappers

  /** A condition on `_ID`: `_ID=id`, or `_ID>=lo AND _ID<=hi`. */
  datatype IdSelection = IdEq(id: int) | IdBetween(lo: int, hi: int)

  /**
   * The selection handed to `composeAndSendVCards`: the id condition, the
   * call-type condition that `createSelectionPara(type)` produced (call logs
   * only; `None` for null) and whether `CLAUSE_ONLY_VISIBLE` is added.
   */
  datatype Query = Query(record: IdSelection, typeSelection: Option<string>, onlyVisible: bool)

  /** Either the window is rejected with `OBEX_HTTP_INTERNAL_ERROR` before any query, or the vCards of `Query` are sent. */
  datatype Resolution = Reject | Send(query: Query)

  /** The `orderByWhat` argument: `ORDER_BY_INDEXED`, `ORDER_BY_ALPHABETICAL` or anything else. */
  datatype Order = ByIndex | ByName | Unsupported

  /** Whether a row with this `_ID` satisfies the id condition. */
  predicate Selects(s: IdSelection, id: int) {
    match s
    case IdEq(x) => id == x
    case IdBetween(lo, hi) => lo <= id <= hi
  }

  /** `startPoint < 1 || startPoint > endPoint`: the window the entry points refuse. */
  predicate BadWindow(startPoint: int, endPoint: int) {
    startPoint < 1 || startPoint > endPoint
  }

  /** The cursor has a row at every position the window reads. */
  predicate WindowFits(startPoint: int, endPoint: int, ids: Option<seq<int>>) {
    ids.Some? && !BadWindow(startPoint, endPoint) ==> endPoint <= |ids.value|
  }

  /** `startPointId`: the id at row `startPoint - 1`, or 0 without a cursor. */
  function StartId(startPoint: int, endPoint: int, ids: Option<seq<int>>): int
    requires !BadWindow(startPoint, endPoint) && WindowFits(startPoint, endPoint, ids)
  {
    if ids.None? then 0 else ids.value[startPoint - 1]
  }

  /** `endPointId`: `startPointId` for a one-row window, else the id at row `endPoint - 1`; 0 without a cursor. */
  function EndId(startPoint: int, endPoint: int, ids: Option<seq<int>>): int
    requires !BadWindow(startPoint, endPoint) && WindowFits(startPoint, endPoint, ids)
  {
    if ids.None? then 0
    else if startPoint == endPoint then StartId(startPoint, endPoint, ids)
    else ids.value[endPoint - 1]
  }

  /**
   * `composeAndSendCallLogVcards`: the call log is read `_ID DESC`, so the
   * start of the window holds the larger id and the range is written
   * swapped, `endPointId <= _ID <= startPointId`.
   */
  function ResolveCallLogWindow(startPoint: int, endPoint: int, typeSelection: Option<string>,
                                ids: Option<seq<int>>): (r: Resolution)
    requires WindowFits(startPoint, endPoint, ids)
    ensures r.Reject? <==> BadWindow(startPoint, endPoint)
    ensures r.Send? ==> r.query.typeSelection == typeSelection && !r.query.onlyVisible
  {
    if BadWindow(startPoint, endPoint) then Reject
    else
      var startId := StartId(startPoint, endPoint, ids);
      var endId := EndId(startPoint, endPoint, ids);
      var record := if startPoint == endPoint then IdEq(startId) else IdBetween(endId, startId);
      Send(Query(record, typeSelection, false))
  }

  /** `composeAndSendPhonebookVcards`: contacts are read by ascending `_ID`; visible contacts only. */
  function ResolvePhonebookWindow(startPoint: int, endPoint: int, ids: Option<seq<int>>): (r: Resolution)
    requires WindowFits(startPoint, endPoint, ids)
    ensures r.Reject? <==> BadWindow(startPoint, endPoint)
    ensures r.Send? ==> r.query.typeSelection.None? && r.query.onlyVisible
  {
    if BadWindow(startPoint, endPoint) then Reject
    else
      var startId := StartId(startPoint, endPoint, ids);
      var endId := EndId(startPoint, endPoint, ids);
      var record := if startPoint == endPoint then IdEq(startId) else IdBetween(startId, endId);
      Send(Query(record, None, true))
  }

  /** The cursor has a row at position `offset - 1` whenever it is read. */
  predicate OffsetFits(offset: int, order: Order, ids: Option<seq<int>>) {
    ids.Some? && offset >= 1 && !order.Unsupported? ==> offset <= |ids.value|
  }

  /**
   * `composeAndSendPhonebookOneVcard`: the contact at row `offset - 1` of
   * the visible contacts sorted by `_ID` (`ByIndex`) or by display name
   * (`ByName`). The final selection is `_ID=contactId` without the
   * visibility clause.
   */
  function ResolveOneVcard(offset: int, order: Order, ids: Option<seq<int>>): (r: Resolution)
    requires OffsetFits(offset, order, ids)
    ensures r.Reject? <==> offset < 1 || order.Unsupported?
    ensures r.Send? ==> r.query.record.IdEq? && r.query.typeSelection.None? && !r.query.onlyVisible
  {
    if offset < 1 || order.Unsupported? then Reject
    else
      var contactId := if ids.None? then 0 else ids.value[offset - 1];
      Send(Query(IdEq(contactId), None, false))
  }

  // ---------------------------------------------------------------------
  // Lemmas

  /** Each id is smaller than the next one: what `ORDER BY _ID` gives for a unique key. */
  predicate Ascending(ids: seq<int>) {
    forall k :: 0 <= k < |ids| - 1 ==> ids[k] < ids[k + 1]
  }

  /** Each id is larger than the next one: `ORDER BY _ID DESC`. */
  predicate Descending(ids: seq<int>) {
    forall k :: 0 <= k < |ids| - 1 ==> ids[k] > ids[k + 1]
  }

  /** No id occurs twice. */
  predicate Distinct(ids: seq<int>) {
    forall i, j :: 0 <= i < j < |ids| ==> ids[i] != ids[j]
  }

  /** Neighbouring order extends to every pair. */
  lemma {:induction false} AscendingPairs(ids: seq<int>, i: nat, j: nat)
    requires Ascending(ids) && i < j < |ids|
    ensures ids[i] < ids[j]
    decreases j - i
  {
    if i + 1 < j {
      AscendingPairs(ids, i + 1, j);
    }
  }

  lemma {:induction false} DescendingPairs(ids: seq<int>, i: nat, j: nat)
    requires Descending(ids) && i < j < |ids|
    ensures ids[i] > ids[j]
    decreases j - i
  {
    if i + 1 < j {
      DescendingPairs(ids, i + 1, j);
    }
  }

  /** Over ascending ids, a phonebook window selects the ids at rows `startPoint - 1 .. endPoint - 1` and no others. */
  lemma PhonebookWindowExact(startPoint: int, endPoint: int, ids: seq<int>)
    requires Ascending(ids) && 1 <= startPoint <= endPoint <= |ids|
    ensures var r := ResolvePhonebookWindow(startPoint, endPoint, Some(ids));
      forall k :: 0 <= k < |ids| ==> (Selects(r.query.record, ids[k]) <==> startPoint - 1 <= k <= endPoint - 1)
  {
    var r := ResolvePhonebookWindow(startPoint, endPoint, Some(ids));
    forall k | 0 <= k < |ids|
      ensures Selects(r.query.record, ids[k]) <==> startPoint - 1 <= k <= endPoint - 1
    {
      if k < startPoint - 1 { AscendingPairs(ids, k, startPoint - 1); }
      if startPoint - 1 < k { AscendingPairs(ids, startPoint - 1, k); }
      if k < endPoint - 1 { AscendingPairs(ids, k, endPoint - 1); }
      if endPoint - 1 < k { AscendingPairs(ids, endPoint - 1, k); }
    }
  }

  /**
   * Over descending ids, the swapped call-log range selects the ids at rows
   * `startPoint - 1 .. endPoint - 1` and no others.
   */
  lemma CallLogWindowExact(startPoint: int, endPoint: int, typeSelection: Option<string>, ids: seq<int>)
    requires Descending(ids) && 1 <= startPoint <= endPoint <= |ids|
    ensures var r := ResolveCallLogWindow(startPoint, endPoint, typeSelection, Some(ids));
      forall k :: 0 <= k < |ids| ==> (Selects(r.query.record, ids[k]) <==> startPoint - 1 <= k <= endPoint - 1)
  {
    var r := ResolveCallLogWindow(startPoint, endPoint, typeSelection, Some(ids));
    forall k | 0 <= k < |ids|
      ensures Selects(r.query.record, ids[k]) <==> startPoint - 1 <= k <= endPoint - 1
    {
      if k < startPoint - 1 { DescendingPairs(ids, k, startPoint - 1); }
      if startPoint - 1 < k { DescendingPairs(ids, startPoint - 1, k); }
      if k < endPoint - 1 { DescendingPairs(ids, k, endPoint - 1); }
      if endPoint - 1 < k { DescendingPairs(ids, endPoint - 1, k); }
    }
  }

  /** Over distinct ids in the chosen order, the one-vCard selection picks exactly row `offset - 1`. */
  lemma OneVcardExact(offset: int, order: Order, ids: seq<int>)
    requires Distinct(ids) && 1 <= offset <= |ids| && !order.Unsupported?
    ensures var r := ResolveOneVcard(offset, order, Some(ids));
      forall k :: 0 <= k < |ids| ==> (Selects(r.query.record, ids[k]) <==> k == offset - 1)
  {
    var r := ResolveOneVcard(offset, order, Some(ids));
    forall k | 0 <= k < |ids|
      ensures Selects(r.query.record, ids[k]) <==> k == offset - 1
    {
      if k < offset - 1 {
        assert ids[k] != ids[offset - 1];
      } else if k > offset - 1 {
        assert ids[offset - 1] != ids[k];
      }
    }
  }

  /**
   * When the query fails the code goes on with both ids 0: the selection
   * then admits `_ID` 0 and nothing else, whatever the window.
   */
  lemma FailedQuerySelectsZero(startPoint: int, endPoint: int, typeSelection: Option<string>,
                               offset: int, order: Order, id: int)
    requires !BadWindow(startPoint, endPoint)
    ensures Selects(ResolveCallLogWindow(startPoint, endPoint, typeSelection, None).query.record, id) <==> id == 0
    ensures Selects(ResolvePhonebookWindow(startPoint, endPoint, None).query.record, id) <==> id == 0
    ensures offset >= 1 && !order.Unsupported? ==>
      (Selects(ResolveOneVcard(offset, order, None).query.record, id) <==> id == 0)
  {
  }
}
