/**
 * The list and size builders of `BluetoothPbapVcardManager`: the vCard
 * listing of the phonebook, the call-history names, the contact names for a
 * number and the sizes the PBAP server reports. Each query's cursor is
 * given as its rows, or `None` when the resolver returned no cursor or threw
 * `CursorWindowAllocationException`; Android resource strings are
 * constants.
 */
module PhonebookLists {
  import opened Wrappers
  import opened JavaStrings
  import opened WindowResolution

  /** `android.R.string.unknownName` (English resources). */
  const UNKNOWN_NAME: string := "Unknown"
  /** `R.string.unknownNumber` (English resources). */
  const UNKNOWN_NUMBER: string := "Unknown"
  /** `CallLog.Calls.PRESENTATION_ALLOWED` */
  const PRESENTATION_ALLOWED: int := 1

  /** A row of a contacts cursor over `CONTACTS_PROJECTION`: `_ID` and `DISPLAY_NAME` (`None` for null). */
  datatype ContactRow = ContactRow(id: int, name: Option<string>)

  /** A row of the call-log cursor: `NUMBER`, `CACHED_NAME` (`None` for null) and `NUMBER_PRESENTATION`. */
  datatype CallRow = CallRow(number: string, cachedName: Option<string>, presentation: int)

  /** `TextUtils.isEmpty(s)`: null or of length 0. */
  predicate IsEmptyText(s: Option<string>) {
    s.None? || s.value == []
  }

  /** A contact's name as listed: `unknownName` stands in for an empty one. */
  function DisplayName(name: Option<string>): (r: string)
    ensures r != []
  {
    if IsEmptyText(name) then UNKNOWN_NAME else name.value
  }

  /** `name + "," + id` for one contact row. */
  function EntryText(row: ContactRow): string {
    DisplayName(row.name) + [','] + DecimalString(row.id)
  }

  /** The `"name,id"` texts of a cursor's rows, in cursor order. */
  function RowTexts(rows: Option<seq<ContactRow>>): (r: seq<string>)
    ensures rows.None? ==> r == []
    ensures rows.Some? ==> |r| == |rows.value|
  {
    if rows.None? then []
    else seq(|rows.value|, k requires 0 <= k < |rows.value| => EntryText(rows.value[k]))
  }

  /**
   * The cursor loop of `getPhonebookNameList` and `getContactNamesByNumber`:
   * one `"name,id"` per row.
   */
  method ReadContactRows(rows: Option<seq<ContactRow>>) returns (texts: seq<string>)
    ensures texts == RowTexts(rows)
  {
    texts := [];
    if rows.None? {
      return;
    }
    var rs := rows.value;
    for i := 0 to |rs|
      invariant |texts| == i
      invariant forall k :: 0 <= k < i ==> texts[k] == EntryText(rs[k])
    {
      texts := texts + [EntryText(rs[i])];
    }
  }

  // ---------------------------------------------------------------------
  // getPhonebookNameList

  /**
   * The owner's name: the profile name when the "ME" profile is used and
   * has a non-empty name (`profileName`, `None` otherwise), else the local
   * phone name.
   */
  function OwnerName(profileName: Option<string>, localPhoneName: string): string {
    if profileName.None? || profileName.value == [] then localPhoneName else profileName.value
  }

  /** The listing: the owner first, then the visible contacts in the order asked for; an unsupported order queries nothing. */
  function PhonebookNames(profileName: Option<string>, localPhoneName: string, order: Order,
                          rows: Option<seq<ContactRow>>): seq<string>
  {
    [OwnerName(profileName, localPhoneName)] + (if order.Unsupported? then [] else RowTexts(rows))
  }

  /** `getPhonebookNameList(orderByWhat)`; `rows` is the cursor of the query `order` selects. */
  method GetPhonebookNameList(profileName: Option<string>, localPhoneName: string, order: Order,
                              rows: Option<seq<ContactRow>>)
    returns (nameList: seq<string>)
    ensures nameList == PhonebookNames(profileName, localPhoneName, order, rows)
  {
    nameList := [OwnerName(profileName, localPhoneName)];
    if !order.Unsupported? {
      var texts := ReadContactRows(rows);
      nameList := nameList + texts;
    }
  }

  /** The last position of `c` in `s`, or -1. */
  function LastIndexOf(s: string, c: char): (r: int)
    ensures -1 <= r < |s|
    ensures r >= 0 ==> s[r] == c
    ensures forall k :: r < k < |s| ==> s[k] != c
  {
    if s == [] then -1
    else if s[|s| - 1] == c then |s| - 1
    else LastIndexOf(s[..|s| - 1], c)
  }

  lemma {:induction false} LastIndexOfAfter(a: string, c: char, b: string)
    requires c !in b
    ensures LastIndexOf(a + [c] + b, c) == |a|
    decreases |b|
  {
    if b != [] {
      var front := b[..|b| - 1];
      assert a + [c] + b == (a + [c] + front) + [b[|b| - 1]];
      assert (a + [c] + b)[..|a + [c] + b| - 1] == a + [c] + front;
      LastIndexOfAfter(a, c, front);
    }
  }

  lemma DecimalHasNoComma(n: int)
    ensures ',' !in DecimalString(n)
  {
    var d := NaturalDigits(if n < 0 then -n else n);
    assert ',' !in d;
  }

  /** `t` splits at its last comma into the name `row` shows and the decimal `_ID` of `row`. */
  predicate ParsesAs(t: string, row: ContactRow) {
    var i := LastIndexOf(t, ',');
    0 <= i && t[..i] == DisplayName(row.name) && t[i + 1..] == DecimalString(row.id)
  }

  /** Every listed contact splits back at its last comma into the name shown and the id, whatever commas the name holds. */
  lemma EntryTextParses(row: ContactRow)
    ensures ParsesAs(EntryText(row), row)
  {
    DecimalHasNoComma(row.id);
    LastIndexOfAfter(DisplayName(row.name), ',', DecimalString(row.id));
  }

  /**
   * The listing always starts with the owner, and holds one entry more than
   * the rows of a supported order's cursor (just the owner otherwise).
   */
  lemma PhonebookNamesOwnerFirst(profileName: Option<string>, localPhoneName: string, order: Order,
                                 rows: Option<seq<ContactRow>>)
    ensures |PhonebookNames(profileName, localPhoneName, order, rows)|
         == 1 + (if order.Unsupported? || rows.None? then 0 else |rows.value|)
    ensures PhonebookNames(profileName, localPhoneName, order, rows)[0] == OwnerName(profileName, localPhoneName)
  {
  }

  /**
   * The listing holds the owner first and then, for a supported order, one
   * entry per row: entry `k + 1` names the contact of row `k` and its id.
   */
  lemma PhonebookNamesShape(profileName: Option<string>, localPhoneName: string, order: Order,
                            rows: seq<ContactRow>, k: nat)
    requires !order.Unsupported? && k < |rows|
    ensures var l := PhonebookNames(profileName, localPhoneName, order, Some(rows));
      && |l| == |rows| + 1 && l[0] == OwnerName(profileName, localPhoneName)
      && ParsesAs(l[k + 1], rows[k])
  {
    var l := PhonebookNames(profileName, localPhoneName, order, Some(rows));
    assert l[k + 1] == EntryText(rows[k]);
    EntryTextParses(rows[k]);
  }

  // ---------------------------------------------------------------------
  // getContactNamesByNumber

  /** No element occurs twice. */
  predicate NoDuplicates(s: seq<string>) {
    forall i, j :: 0 <= i < j < |s| ==> s[i] != s[j]
  }

  /**
   * The dedup loop: `xs` with every element that already occurred dropped.
   * It keeps exactly the elements of `xs`, each once.
   */
  function Dedup(xs: seq<string>): (r: seq<string>)
    ensures forall x :: x in r <==> x in xs
    ensures NoDuplicates(r)
  {
    if xs == [] then []
    else
      var d := Dedup(xs[..|xs| - 1]);
      var x := xs[|xs| - 1];
      if x in d then d else d + [x]
  }

  /** Where `x` first occurs in `xs`. */
  function FirstIndex(xs: seq<string>, x: string): (i: nat)
    requires x in xs
    ensures i < |xs| && xs[i] == x && x !in xs[..i]
  {
    if xs[0] == x then 0 else 1 + FirstIndex(xs[1..], x)
  }

  lemma {:induction false} FirstIndexOfPrefix(xs: seq<string>, n: nat, x: string)
    requires n <= |xs| && x in xs[..n]
    ensures FirstIndex(xs, x) == FirstIndex(xs[..n], x)
  {
    var i := FirstIndex(xs[..n], x);
    assert xs[i] == x && x !in xs[..i];
  }

  /** An element that does not occur before the last position first occurs there. */
  lemma FirstIndexOfLast(xs: seq<string>)
    requires xs != [] && xs[|xs| - 1] !in xs[..|xs| - 1]
    ensures FirstIndex(xs, xs[|xs| - 1]) == |xs| - 1
  {
  }

  /**
   * The result keeps first occurrences in cursor order: its elements appear
   * in the order of their first occurrence in `xs`.
   */
  lemma {:induction false} DedupKeepsFirstOrder(xs: seq<string>)
    ensures forall i, j :: 0 <= i < j < |Dedup(xs)| ==> FirstIndex(xs, Dedup(xs)[i]) < FirstIndex(xs, Dedup(xs)[j])
  {
    if xs != [] {
      var n := |xs| - 1;
      var front := xs[..n];
      var d0 := Dedup(front);
      DedupKeepsFirstOrder(front);
      var d := Dedup(xs);
      assert d == if xs[n] in d0 then d0 else d0 + [xs[n]];
      if xs[n] !in d0 {
        FirstIndexOfLast(xs);
      }
      forall i, j | 0 <= i < j < |d|
        ensures FirstIndex(xs, d[i]) < FirstIndex(xs, d[j])
      {
        var a := d0[i];
        assert a in d0;
        FirstIndexOfPrefix(xs, n, a);
        if j < |d0| {
          var b := d0[j];
          assert b in d0;
          FirstIndexOfPrefix(xs, n, b);
          assert FirstIndex(front, a) < FirstIndex(front, b);
        } else {
          assert d[j] == xs[n];
        }
      }
    }
  }

  /**
   * `getContactNamesByNumber(phoneNumber)`. The number only chooses the
   * query (all contacts for an empty number, a phone lookup otherwise), so
   * `rows` is that query's cursor. Each `"name,id"` is kept once, at its
   * first occurrence.
   */
  method GetContactNamesByNumber(rows: Option<seq<ContactRow>>) returns (nameList: seq<string>)
    ensures nameList == Dedup(RowTexts(rows))
  {
    var tempNameList := ReadContactRows(rows);
    nameList := [];
    for index := 0 to |tempNameList|
      invariant nameList == Dedup(tempNameList[..index])
    {
      var entry := tempNameList[index];
      assert tempNameList[..index + 1][..index] == tempNameList[..index];
      if entry !in nameList {
        nameList := nameList + [entry];
      }
    }
    assert tempNameList[..|tempNameList|] == tempNameList;
  }

  // ---------------------------------------------------------------------
  // loadCallHistoryList

  /** The name listed for a call: the cached name, else the number when its presentation is allowed, else `unknownNumber`. */
  function CallName(row: CallRow): string {
    if !IsEmptyText(row.cachedName) then row.cachedName.value
    else if row.presentation != PRESENTATION_ALLOWED then UNKNOWN_NUMBER
    else row.number
  }

  /** The call-history names, one per row in cursor order (`_ID DESC`). */
  function CallNames(rows: Option<seq<CallRow>>): (r: seq<string>)
    ensures rows.None? ==> r == []
    ensures rows.Some? ==> |r| == |rows.value|
  {
    if rows.None? then []
    else seq(|rows.value|, k requires 0 <= k < |rows.value| => CallName(rows.value[k]))
  }

  /** `loadCallHistoryList(type)`; `rows` is the cursor of the call log under `createSelectionPara(type)`. */
  method LoadCallHistoryList(rows: Option<seq<CallRow>>) returns (list: seq<string>)
    ensures list == CallNames(rows)
  {
    list := [];
    if rows.None? {
      return;
    }
    var rs := rows.value;
    for i := 0 to |rs|
      invariant |list| == i
      invariant forall k :: 0 <= k < i ==> list[k] == CallName(rs[k])
    {
      var name := rs[i].cachedName;
      var shown: string;
      if IsEmptyText(name) {
        if rs[i].presentation != PRESENTATION_ALLOWED {
          shown := UNKNOWN_NUMBER;
        } else {
          shown := rs[i].number;
        }
      } else {
        shown := name.value;
      }
      list := list + [shown];
    }
  }

  /**
   * A call's number is listed only when its presentation is allowed or it
   * is the cached name itself; a row with a cached name always shows it,
   * and a nameless withheld call shows the placeholder.
   */
  lemma CallNamesWithholdNumbers(rows: seq<CallRow>)
    ensures var l := CallNames(Some(rows));
      forall k :: 0 <= k < |rows| ==>
        && (!IsEmptyText(rows[k].cachedName) ==> l[k] == rows[k].cachedName.value)
        && (IsEmptyText(rows[k].cachedName) ==>
              (l[k] == rows[k].number <== rows[k].presentation == PRESENTATION_ALLOWED)
              && (rows[k].presentation != PRESENTATION_ALLOWED ==> l[k] == UNKNOWN_NUMBER))
  {
  }

  // ---------------------------------------------------------------------
  // Sizes

  /** `getContactsSize()`: the visible contacts plus the owner's `0.vcf`, or 0 when the query fails. */
  function GetContactsSize(visibleCount: Option<nat>): (size: nat)
    ensures size == 0 <==> visibleCount.None?
  {
    if visibleCount.None? then 0 else visibleCount.value + 1
  }

  /** `getCallHistorySize(type)`: the rows of the call log under the type's selection, or 0 when the query fails. */
  function GetCallHistorySize(count: Option<nat>): (size: nat)
    ensures count.None? ==> size == 0
  {
    if count.None? then 0 else count.value
  }

  /** The `type` argument of `getPhonebookSize`: `ContentType.PHONEBOOK`, or a call-history type. */
  datatype ContentType = Phonebook | CallHistory(code: int)

  /** `getPhonebookSize(type)`: the contacts size for the phonebook, else the call-history size. */
  function GetPhonebookSize(t: ContentType, visibleCount: Option<nat>, callCount: Option<nat>): (size: nat)
    ensures t.Phonebook? ==> (size == 0 <==> visibleCount.None?)
    ensures t.CallHistory? ==> (size == 0 <==> callCount.None? || callCount.value == 0)
  {
    match t
    case Phonebook => GetContactsSize(visibleCount)
    case CallHistory(_) => GetCallHistorySize(callCount)
  }

  /**
   * Over the same visible contacts, the phonebook size counts the listing
   * the server hands out, owner included; when the query fails the size is
   * 0 although the listing still holds the owner.
   */
  lemma ContactsSizeCountsListing(profileName: Option<string>, localPhoneName: string, order: Order,
                                  rows: Option<seq<ContactRow>>)
    requires !order.Unsupported?
    ensures rows.Some? ==>
      GetContactsSize(Some(|rows.value|)) == |PhonebookNames(profileName, localPhoneName, order, rows)|
    ensures rows.None? ==>
      GetContactsSize(None) == 0 && |PhonebookNames(profileName, localPhoneName, order, rows)| == 1
  {
  }

  /** Over the same call-log rows, the call-history size is the length of the name list. */
  lemma CallHistorySizeCountsList(rows: Option<seq<CallRow>>)
    ensures GetCallHistorySize(if rows.None? then None else Some(|rows.value|)) == |CallNames(rows)|
  {
  }
}
