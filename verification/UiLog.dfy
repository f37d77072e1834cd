/**
 The log list shown by the interface (frontend/src/lib/stores/logStore.ts): INFO and WARN lines are
 grouped, the last occurrence moves a group to the end, and only 500 rows are kept.  Messages are
 taken after redaction.
 */
module UiLog {
  import opened Wrappers

  const MAX_ENTRIES := 500

  datatype Level = INFO | ERROR | WARN | DEBUG

  datatype LogEntry = LogEntry(id: nat, level: Level, message: string, time: string, count: nat)

  /** One push. */
  datatype Line = Line(level: Level, message: string, time: string)

  // ---------------------------------------------------------------- grouping

  /** The position of the first ']' at or after i, or the length. */
  function FirstClose(m: string, i: nat): (j: nat)
    requires i <= |m|
    ensures i <= j <= |m|
    ensures j < |m| ==> m[j] == ']'
    ensures forall k :: i <= k < j ==> m[k] != ']'
    decreases |m| - i
  {
    if i == |m| || m[i] == ']' then i else FirstClose(m, i + 1)
  }

  /** The text matched by ^\[([^\]]+)\], without the brackets. */
  function ExtractTag(m: string): string {
    if m == "" || m[0] != '[' then ""
    else
      var j := FirstClose(m, 1);
      if j == |m| || j == 1 then "" else m[1..j]
  }

  function GroupingKey(m: string): string {
    if ExtractTag(m) == "STATS" then "[STATS]" else m
  }

  lemma StatsTag(m: string)
    ensures ExtractTag(m) == "STATS" <==> "[STATS]" <= m
  {
    if m != "" && m[0] == '[' {
      var j := FirstClose(m, 1);
      if "[STATS]" <= m {
        assert m[6] == ']' && m[1] != ']' && m[2] != ']' && m[3] != ']' && m[4] != ']' && m[5] != ']';
        assert j == 6;
        assert m[1..6] == "STATS";
      }
      if ExtractTag(m) == "STATS" {
        assert m[..j + 1] == ['['] + m[1..j] + [']'];
      }
    }
  }

  /** Two messages fall into one group exactly when they are equal or are both STATS samples. */
  lemma GroupsByMessage(m1: string, m2: string)
    ensures GroupingKey(m1) == GroupingKey(m2) <==> m1 == m2 || ("[STATS]" <= m1 && "[STATS]" <= m2)
  {
    StatsTag(m1);
    StatsTag(m2);
  }

  // ---------------------------------------------------------------- what the list means

  /** What a row stands for: a group of INFO or WARN lines, or one single ERROR or DEBUG push. */
  datatype Item = Group(level: Level, key: string) | Single(push: nat)

  function ItemAt(h: seq<Line>, n: nat): Item
    requires n < |h|
  {
    if h[n].level == ERROR || h[n].level == DEBUG then Single(n) else Group(h[n].level, GroupingKey(h[n].message))
  }

  function Items(h: seq<Line>): (r: seq<Item>)
    ensures |r| == |h|
  {
    seq(|h|, n requires 0 <= n < |h| => ItemAt(h, n))
  }

  /** The first position of an item, or the length. */
  function IndexOf(r: seq<Item>, x: Item): (i: nat)
    ensures i <= |r|
    ensures i < |r| ==> r[i] == x
    ensures forall j :: 0 <= j < i ==> r[j] != x
  {
    if r == [] || r[0] == x then 0 else 1 + IndexOf(r[1..], x)
  }

  function Without(r: seq<Item>, x: Item): seq<Item> {
    var i := IndexOf(r, x);
    if i < |r| then r[..i] + r[i + 1..] else r
  }

  /** The distinct items of a history, least recent first. */
  function Recency(ks: seq<Item>): seq<Item> {
    if ks == [] then [] else Without(Recency(ks[..|ks| - 1]), ks[|ks| - 1]) + [ks[|ks| - 1]]
  }

  function Newest(r: seq<Item>): seq<Item> {
    if |r| > MAX_ENTRIES then r[|r| - MAX_ENTRIES..] else r
  }

  /** The items on display after a history. */
  function Shown(ks: seq<Item>): seq<Item> {
    Newest(Recency(ks))
  }

  function LastIndex(ks: seq<Item>, x: Item): (n: nat)
    requires x in ks
    ensures n < |ks| && ks[n] == x
    ensures forall m :: n < m < |ks| ==> ks[m] != x
  {
    if ks[|ks| - 1] == x then |ks| - 1 else LastIndex(ks[..|ks| - 1], x)
  }

  /** Occurrences of an item since it was last off the list. */
  function Count(ks: seq<Item>, x: Item): nat {
    if ks == [] then 0
    else
      var before := ks[..|ks| - 1];
      (if x in Shown(before) then Count(before, x) else 0) + (if ks[|ks| - 1] == x then 1 else 0)
  }

  function Occurrences(ks: seq<Item>, x: Item): nat {
    if ks == [] then 0 else Occurrences(ks[..|ks| - 1], x) + (if ks[|ks| - 1] == x then 1 else 0)
  }

  ghost predicate Distinct(r: seq<Item>) {
    forall i, j :: 0 <= i < j < |r| ==> r[i] != r[j]
  }

  // ---------------------------------------------------------------- lemmas about recency

  lemma RecencyStep(ks: seq<Item>, x: Item)
    ensures Recency(ks + [x]) == Without(Recency(ks), x) + [x]
  {
    assert (ks + [x])[..|ks|] == ks;
  }

  lemma LastIndexStep(ks: seq<Item>, x: Item, y: Item)
    requires y in ks || y == x
    ensures y in ks + [x]
    ensures LastIndex(ks + [x], y) == if y == x then |ks| else LastIndex(ks, y)
  {
    assert (ks + [x])[..|ks|] == ks;
  }

  /** Recency is the list of distinct items of the history, ordered by last occurrence. */
  ghost predicate ByLastOccurrence(ks: seq<Item>, r: seq<Item>) {
    && (forall x :: x in r <==> x in ks)
    && (forall i, j :: 0 <= i < j < |r| ==>
          r[i] in ks && r[j] in ks && LastIndex(ks, r[i]) < LastIndex(ks, r[j]))
  }

  lemma WithoutAt(r: seq<Item>, x: Item, k: nat)
    requires k < |Without(r, x)|
    ensures k < |r| && (k >= IndexOf(r, x) ==> k + 1 < |r|)
    ensures Without(r, x)[k] == if k < IndexOf(r, x) then r[k] else r[k + 1]
  {
  }

  lemma WithoutMembers(r: seq<Item>, x: Item)
    requires Distinct(r)
    ensures Distinct(Without(r, x))
    ensures forall y :: y in Without(r, x) <==> y in r && y != x
  {
    var p, w := IndexOf(r, x), Without(r, x);
    forall k | 0 <= k < |w| ensures w[k] in r && w[k] != x {
      WithoutAt(r, x, k);
    }
    forall y | y in r && y != x ensures y in w {
      var k :| 0 <= k < |r| && r[k] == y;
      assert w[if k < p then k else k - 1] == y;
    }
  }

  lemma MoveToEnd(ks: seq<Item>, r: seq<Item>, x: Item)
    requires ByLastOccurrence(ks, r) && Distinct(r)
    ensures ByLastOccurrence(ks + [x], Without(r, x) + [x])
  {
    var w := Without(r, x);
    var s := w + [x];
    WithoutMembers(r, x);
    forall y ensures y in s <==> y in ks + [x] {
      assert y in s <==> y in w || y == x;
    }
    forall i, j | 0 <= i < j < |s|
      ensures s[i] in ks + [x] && s[j] in ks + [x] && LastIndex(ks + [x], s[i]) < LastIndex(ks + [x], s[j])
    {
      assert s[i] == w[i] && w[i] in w;
      LastIndexStep(ks, x, s[i]);
      if j < |w| {
        assert s[j] == w[j] && w[j] in w;
        WithoutAt(r, x, i);
        WithoutAt(r, x, j);
      }
      LastIndexStep(ks, x, s[j]);
    }
  }

  lemma {:induction false} RecencyMeaning(ks: seq<Item>)
    ensures ByLastOccurrence(ks, Recency(ks))
    ensures Distinct(Recency(ks))
  {
    if ks != [] {
      var before, x := ks[..|ks| - 1], ks[|ks| - 1];
      RecencyMeaning(before);
      MoveToEnd(before, Recency(before), x);
      assert before + [x] == ks;
    }
  }

  lemma IndexIn(r: seq<Item>, x: Item, i: nat)
    requires Distinct(r) && i < |r| && r[i] == x
    ensures IndexOf(r, x) == i
  {
  }

  /** A list that keeps only the newest rows changes exactly as the full recency order would. */
  lemma ShownAfter(ks: seq<Item>, x: Item)
    ensures Shown(ks + [x]) == Newest(Without(Shown(ks), x) + [x])
  {
    RecencyMeaning(ks);
    RecencyStep(ks, x);
    NewestOfMoved(Recency(ks), x);
  }

  lemma NotShown(r: seq<Item>, x: Item, cut: nat)
    requires Distinct(r) && cut <= |r| && IndexOf(r, x) < cut
    ensures x !in r[cut..]
  {
    forall k | cut <= k < |r| ensures r[k] != x { assert r[k] != r[IndexOf(r, x)]; }
  }

  lemma NotFound(r: seq<Item>, x: Item)
    requires x !in r
    ensures IndexOf(r, x) == |r|
  {
  }

  lemma DropBelow(r: seq<Item>, p: nat, cut: nat, x: Item)
    requires p < cut <= |r|
    ensures (r[..p] + r[p + 1..] + [x])[cut..] == (r[cut..] + [x])[1..]
  {
  }

  lemma DropWithin(r: seq<Item>, p: nat, cut: nat, x: Item)
    requires cut <= p < |r|
    ensures (r[..p] + r[p + 1..] + [x])[cut..] == r[cut..][..p - cut] + r[cut..][p - cut + 1..] + [x]
  {
  }

  lemma WithoutFound(r: seq<Item>, x: Item)
    ensures IndexOf(r, x) < |r| ==> Without(r, x) == r[..IndexOf(r, x)] + r[IndexOf(r, x) + 1..]
    ensures IndexOf(r, x) == |r| ==> Without(r, x) == r
  {
    hide IndexOf;
  }

  lemma NewestOf(r: seq<Item>)
    ensures |r| > MAX_ENTRIES ==> Newest(r) == r[|r| - MAX_ENTRIES..]
    ensures |r| <= MAX_ENTRIES ==> Newest(r) == r
  {
  }

  lemma MovedFromBelow(r: seq<Item>, x: Item)
    requires Distinct(r) && |r| > MAX_ENTRIES && IndexOf(r, x) < |r| - MAX_ENTRIES
    ensures Newest(Without(r, x) + [x]) == Newest(Without(Newest(r), x) + [x])
  {
    hide Distinct, IndexOf, Without, Newest;
    var cut, p := |r| - MAX_ENTRIES, IndexOf(r, x);
    var v := r[cut..];
    NewestOf(r);
    NotShown(r, x, cut);
    NotFound(v, x);
    WithoutFound(r, x);
    WithoutFound(v, x);
    NewestOf(Without(r, x) + [x]);
    NewestOf(v + [x]);
    DropBelow(r, p, cut, x);
  }

  lemma MovedWithin(r: seq<Item>, x: Item)
    requires Distinct(r) && |r| > MAX_ENTRIES && |r| - MAX_ENTRIES <= IndexOf(r, x) < |r|
    ensures Newest(Without(r, x) + [x]) == Newest(Without(Newest(r), x) + [x])
  {
    hide Distinct, IndexOf, Without, Newest;
    var cut, p := |r| - MAX_ENTRIES, IndexOf(r, x);
    var v := r[cut..];
    NewestOf(r);
    FoundInTail(r, x, cut);
    WithoutFound(r, x);
    WithoutFound(v, x);
    NewestOf(Without(r, x) + [x]);
    NewestOf(Without(v, x) + [x]);
    DropWithin(r, p, cut, x);
  }

  lemma FoundInTail(r: seq<Item>, x: Item, cut: nat)
    requires Distinct(r) && cut <= IndexOf(r, x) < |r|
    ensures IndexOf(r[cut..], x) == IndexOf(r, x) - cut
  {
    assert Distinct(r[cut..]);
    IndexIn(r[cut..], x, IndexOf(r, x) - cut);
  }

  lemma NewlyAdded(r: seq<Item>, x: Item)
    requires |r| > MAX_ENTRIES && IndexOf(r, x) == |r|
    ensures Newest(Without(r, x) + [x]) == Newest(Without(Newest(r), x) + [x])
  {
    var cut := |r| - MAX_ENTRIES;
    forall k | cut <= k < |r| ensures r[k] != x {}
    NotFound(r[cut..], x);
    assert Without(r, x) == r && Without(r[cut..], x) == r[cut..];
    assert (r + [x])[cut + 1..] == (r[cut..] + [x])[1..];
  }

  lemma NewestOfMoved(r: seq<Item>, x: Item)
    requires Distinct(r)
    ensures Newest(Without(r, x) + [x]) == Newest(Without(Newest(r), x) + [x])
  {
    if |r| > MAX_ENTRIES {
      if IndexOf(r, x) < |r| - MAX_ENTRIES {
        MovedFromBelow(r, x);
      } else if IndexOf(r, x) < |r| {
        MovedWithin(r, x);
      } else {
        NewlyAdded(r, x);
      }
    }
  }

  lemma {:induction false} ShownBounded(ks: seq<Item>)
    ensures |Shown(ks)| <= MAX_ENTRIES && Distinct(Shown(ks))
    ensures forall x :: x in Shown(ks) ==> x in ks
  {
    RecencyMeaning(ks);
  }

  lemma OccurrencesFrom(ks: seq<Item>, x: Item, start: nat)
    requires start < |ks|
    ensures Occurrences(ks[start..], x) ==
            Occurrences(ks[..|ks| - 1][start..], x) + (if ks[|ks| - 1] == x then 1 else 0)
  {
    assert ks[start..][..|ks| - start - 1] == ks[..|ks| - 1][start..];
  }

  lemma NoOccurrences(x: Item)
    ensures Occurrences([], x) == 0
  {
  }

  lemma CountStep(ks: seq<Item>, x: Item)
    requires ks != []
    ensures Count(ks, x) == (if x in Shown(ks[..|ks| - 1]) then Count(ks[..|ks| - 1], x) else 0)
                            + (if ks[|ks| - 1] == x then 1 else 0)
  {
    hide Shown;
  }

  /** The count of a row is the number of occurrences since it last came onto the list. */
  lemma {:induction false} CountSinceLastAbsent(ks: seq<Item>, x: Item, start: nat)
    requires start < |ks|
    requires x !in Shown(ks[..start])
    requires forall m :: start < m <= |ks| ==> x in Shown(ks[..m])
    ensures Count(ks, x) == Occurrences(ks[start..], x)
    decreases |ks|
  {
    hide Shown, Occurrences, Count;
    var before := ks[..|ks| - 1];
    CountStep(ks, x);
    NoOccurrences(x);
    OccurrencesFrom(ks, x, start);
    assert before[..start] == ks[..start];
    if start == |ks| - 1 {
      assert before == ks[..start] && before[start..] == [];
    } else {
      forall m | start < m <= |before| ensures x in Shown(before[..m]) { assert before[..m] == ks[..m]; }
      assert before == before[..|before|];
      CountSinceLastAbsent(before, x, start);
    }
  }

  // ---------------------------------------------------------------- the store

  /** The row that shows item x after a history. */
  ghost predicate RowFor(row: LogEntry, h: seq<Line>, x: Item) {
    x in Items(h) &&
    var last := h[LastIndex(Items(h), x)];
    && row.level == last.level && row.message == last.message && row.time == last.time
    && row.count == Count(Items(h), x)
  }

  /** The rows are the shown items, oldest first. */
  ghost predicate Displays(rows: seq<LogEntry>, h: seq<Line>) {
    ShowsAll(rows, h, Shown(Items(h)))
  }

  ghost predicate FreshIds(rows: seq<LogEntry>, next: nat) {
    && (forall i :: 0 <= i < |rows| ==> rows[i].id < next)
    && (forall i, j :: 0 <= i < j < |rows| ==> rows[i].id != rows[j].id)
  }

  lemma ItemsAppend(h: seq<Line>, l: Line)
    ensures Items(h + [l]) == Items(h) + [ItemAt(h + [l], |h|)]
  {
    assert forall n :: 0 <= n < |h| ==> ItemAt(h + [l], n) == ItemAt(h, n);
  }

  /** Rows of other items are not touched by a push. */
  lemma OtherRowStays(row: LogEntry, h: seq<Line>, l: Line, y: Item)
    requires RowFor(row, h, y) && y in Shown(Items(h)) && y != ItemAt(h + [l], |h|)
    ensures RowFor(row, h + [l], y)
  {
    ItemsAppend(h, l);
    var x := ItemAt(h + [l], |h|);
    LastIndexStep(Items(h), x, y);
    assert (Items(h) + [x])[..|h|] == Items(h);
  }

  lemma NewRow(row: LogEntry, h: seq<Line>, l: Line)
    requires row.level == l.level && row.message == l.message && row.time == l.time
    requires var x := ItemAt(h + [l], |h|);
             row.count == (if x in Shown(Items(h)) then Count(Items(h), x) else 0) + 1
    ensures RowFor(row, h + [l], ItemAt(h + [l], |h|))
  {
    ItemsAppend(h, l);
    var x := ItemAt(h + [l], |h|);
    LastIndexStep(Items(h), x, x);
    assert (Items(h) + [x])[..|h|] == Items(h);
  }

  /** A row belongs to the pushed line's group exactly when it shows the pushed line's item. */
  lemma RowMatches(row: LogEntry, h: seq<Line>, y: Item, l: Line)
    requires RowFor(row, h, y) && (l.level == INFO || l.level == WARN)
    ensures row.level == l.level && GroupingKey(row.message) == GroupingKey(l.message) <==> y == ItemAt(h + [l], |h|)
  {
  }

  /** Rows rows show items, one by one. */
  ghost predicate ShowsAll(rows: seq<LogEntry>, h: seq<Line>, items: seq<Item>) {
    |rows| == |items| && forall i :: 0 <= i < |rows| ==> RowFor(rows[i], h, items[i])
  }

  lemma ShowsAllDrop(rows: seq<LogEntry>, h: seq<Line>, items: seq<Item>, n: nat)
    requires ShowsAll(rows, h, items) && n <= |rows|
    ensures ShowsAll(rows[n..], h, items[n..])
  {
    hide RowFor;
  }

  lemma ShowsAllJoin(rows: seq<LogEntry>, rows': seq<LogEntry>, h: seq<Line>, items: seq<Item>, items': seq<Item>)
    requires ShowsAll(rows, h, items) && ShowsAll(rows', h, items')
    ensures ShowsAll(rows + rows', h, items + items')
  {
    hide RowFor;
  }

  /** Items of a list other than x. */
  ghost predicate AllOther(items: seq<Item>, shown: seq<Item>, x: Item) {
    forall i :: 0 <= i < |items| ==> items[i] in shown && items[i] != x
  }

  /** A push leaves the rows of other items right. */
  lemma OtherRowsStay(rows: seq<LogEntry>, h: seq<Line>, items: seq<Item>, l: Line)
    requires ShowsAll(rows, h, items)
    requires AllOther(items, Shown(Items(h)), ItemAt(h + [l], |h|))
    ensures ShowsAll(rows, h + [l], items)
  {
    forall i | 0 <= i < |rows| ensures RowFor(rows[i], h + [l], items[i]) {
      OtherRowStays(rows[i], h, l, items[i]);
    }
  }

  /** The rows after a push of a line whose item is not shown. */
  lemma DisplaysAppend(rows: seq<LogEntry>, h: seq<Line>, l: Line, row: LogEntry)
    requires Displays(rows, h)
    requires ItemAt(h + [l], |h|) !in Shown(Items(h))
    requires row.level == l.level && row.message == l.message && row.time == l.time && row.count == 1
    ensures Displays(NewestRows(rows + [row]), h + [l])
  {
    hide RowFor;
    var shown, x := Shown(Items(h)), ItemAt(h + [l], |h|);
    NewRow(row, h, l);
    OtherRowsStay(rows, h, shown, l);
    ShowsAllJoin(rows, [row], h + [l], shown, [x]);
    if |rows| + 1 > MAX_ENTRIES {
      ShowsAllDrop(rows + [row], h + [l], shown + [x], |rows| + 1 - MAX_ENTRIES);
    }
    ItemsAppend(h, l);
    ShownAfter(Items(h), x);
    NotFound(shown, x);
  }

  function NewestRows(rows: seq<LogEntry>): seq<LogEntry> {
    if |rows| > MAX_ENTRIES then rows[|rows| - MAX_ENTRIES..] else rows
  }

  lemma OthersAreOther(shown: seq<Item>, idx: nat)
    requires Distinct(shown) && idx < |shown|
    ensures AllOther(shown[..idx], shown, shown[idx]) && AllOther(shown[idx + 1..], shown, shown[idx])
  {
  }

  lemma UpdatedRow(row: LogEntry, row': LogEntry, h: seq<Line>, l: Line)
    requires RowFor(row, h, ItemAt(h + [l], |h|)) && ItemAt(h + [l], |h|) in Shown(Items(h))
    requires row'.level == l.level && row'.message == l.message && row'.time == l.time && row'.count == row.count + 1
    ensures RowFor(row', h + [l], ItemAt(h + [l], |h|))
  {
    NewRow(row', h, l);
  }

  /** The rows after a push that repeats the item of row idx. */
  lemma DisplaysMove(rows: seq<LogEntry>, h: seq<Line>, l: Line, row: LogEntry, idx: nat)
    requires Displays(rows, h)
    requires idx < |rows| && Shown(Items(h))[idx] == ItemAt(h + [l], |h|)
    requires row.level == l.level && row.message == l.message && row.time == l.time && row.count == rows[idx].count + 1
    ensures Displays(rows[..idx] + rows[idx + 1..] + [row], h + [l])
  {
    hide RowFor, Shown, Items, ItemAt, Distinct;
    var shown, x := Shown(Items(h)), ItemAt(h + [l], |h|);
    ShownBounded(Items(h));
    UpdatedRow(rows[idx], row, h, l);
    OthersAreOther(shown, idx);
    OtherRowsStay(rows[..idx], h, shown[..idx], l);
    OtherRowsStay(rows[idx + 1..], h, shown[idx + 1..], l);
    ShowsAllJoin(rows[..idx], rows[idx + 1..], h + [l], shown[..idx], shown[idx + 1..]);
    ShowsAllJoin(rows[..idx] + rows[idx + 1..], [row], h + [l], shown[..idx] + shown[idx + 1..], [x]);
    ShownAfterMove(h, l, idx);
  }

  lemma ShownAfterMove(h: seq<Line>, l: Line, idx: nat)
    requires idx < |Shown(Items(h))| && Shown(Items(h))[idx] == ItemAt(h + [l], |h|)
    ensures var shown := Shown(Items(h));
            Shown(Items(h + [l])) == shown[..idx] + shown[idx + 1..] + [shown[idx]]
  {
    ShownBounded(Items(h));
    ItemsAppend(h, l);
    ShownAfter(Items(h), ItemAt(h + [l], |h|));
    IndexIn(Shown(Items(h)), ItemAt(h + [l], |h|), idx);
  }

  lemma FreshIdsAppend(rows: seq<LogEntry>, next: nat, row: LogEntry)
    requires FreshIds(rows, next) && row.id == next
    ensures FreshIds(NewestRows(rows + [row]), next + 1)
  {
    var all := rows + [row];
    assert FreshIds(all, next + 1);
  }

  lemma FreshIdsMove(rows: seq<LogEntry>, next: nat, idx: nat, row: LogEntry)
    requires FreshIds(rows, next) && idx < |rows| && row.id == rows[idx].id
    ensures FreshIds(rows[..idx] + rows[idx + 1..] + [row], next)
  {
  }

  lemma SingleIsNew(h: seq<Line>, l: Line)
    requires l.level == ERROR || l.level == DEBUG
    ensures ItemAt(h + [l], |h|) !in Shown(Items(h))
  {
    ShownBounded(Items(h));
    assert Single(|h|) !in Items(h);
  }

  /** The first row of the pushed line's group is the row of its item; without one the item is not
      shown. */
  lemma FoundIsShown(rows: seq<LogEntry>, h: seq<Line>, l: Line, idx: nat)
    requires Displays(rows, h) && (l.level == INFO || l.level == WARN) && idx <= |rows|
    requires idx < |rows| ==> rows[idx].level == l.level && GroupingKey(rows[idx].message) == GroupingKey(l.message)
    requires forall i :: 0 <= i < idx ==> !(rows[i].level == l.level && GroupingKey(rows[i].message) == GroupingKey(l.message))
    ensures if idx < |rows| then Shown(Items(h))[idx] == ItemAt(h + [l], |h|) else ItemAt(h + [l], |h|) !in Shown(Items(h))
  {
    hide RowFor;
    var shown := Shown(Items(h));
    if idx < |rows| {
      RowMatches(rows[idx], h, shown[idx], l);
    } else {
      forall i | 0 <= i < |shown| ensures shown[i] != ItemAt(h + [l], |h|) {
        RowMatches(rows[i], h, shown[i], l);
      }
    }
  }

  class LogStore {
    var nextId: nat
    var entries: seq<LogEntry>
    ghost var history: seq<Line>   // every push since the last clear

    ghost predicate Valid()
      reads this
    {
      Displays(entries, history) && FreshIds(entries, nextId)
    }

    constructor ()
      ensures Valid() && history == []
    {
      nextId, entries, history := 0, [], [];
    }

    method Clear()
      modifies this
      ensures Valid() && history == [] && nextId == old(nextId)
    {
      entries, history := [], [];
    }

    method FindIndex(level: Level, key: string) returns (idx: nat)
      ensures idx <= |entries|
      ensures idx < |entries| ==> entries[idx].level == level && GroupingKey(entries[idx].message) == key
      ensures forall i :: 0 <= i < idx ==> !(entries[i].level == level && GroupingKey(entries[i].message) == key)
    {
      idx := 0;
      while idx < |entries|
        invariant 0 <= idx <= |entries|
        invariant forall i :: 0 <= i < idx ==> !(entries[i].level == level && GroupingKey(entries[i].message) == key)
      {
        if entries[idx].level == level && GroupingKey(entries[idx].message) == key {
          return;
        }
        idx := idx + 1;
      }
    }

    method Append(l: Line)
      requires Valid() && ItemAt(history + [l], |history|) !in Shown(Items(history))
      modifies this
      ensures Valid() && history == old(history) + [l]
    {
      hide RowFor, FreshIds, ShowsAll, Shown, Items, ItemAt;
      var row := LogEntry(nextId, l.level, l.message, l.time, 1);
      DisplaysAppend(entries, history, l, row);
      FreshIdsAppend(entries, nextId, row);
      entries := NewestRows(entries + [row]);
      nextId := nextId + 1;
      history := history + [l];
    }

    method Push(level: Level, message: string, time: string)
      requires Valid()
      modifies this
      ensures Valid() && history == old(history) + [Line(level, message, time)]
    {
      hide RowFor, FreshIds, ShowsAll;
      var l := Line(level, message, time);
      if level == ERROR || level == DEBUG {
        SingleIsNew(history, l);
        Append(l);
        return;
      }
      var idx := FindIndex(level, GroupingKey(message));
      FoundIsShown(entries, history, l, idx);
      if idx < |entries| {
        var found := entries[idx];
        var updated := found.(message := message, time := time, count := found.count + 1);
        DisplaysMove(entries, history, l, updated, idx);
        FreshIdsMove(entries, nextId, idx, updated);
        entries := entries[..idx] + entries[idx + 1..] + [updated];
        history := history + [l];
      } else {
        Append(l);
      }
    }
  }

  /** What the list shows is determined by the history alone: the distinct items ordered by last
      occurrence, cut to the newest 500. */
  lemma DisplayIsLruOfHistory(rows: seq<LogEntry>, h: seq<Line>)
    requires Displays(rows, h)
    ensures var all := Recency(Items(h));
            && ByLastOccurrence(Items(h), all) && Distinct(all)
            && |rows| == (if |all| > MAX_ENTRIES then MAX_ENTRIES else |all|)
            && forall i :: 0 <= i < |rows| ==> RowFor(rows[i], h, all[|all| - |rows| + i])
  {
    hide RowFor, ByLastOccurrence, Distinct, Items;
    RecencyMeaning(Items(h));
    var all, shown := Recency(Items(h)), Shown(Items(h));
    forall i | 0 <= i < |rows| ensures RowFor(rows[i], h, all[|all| - |rows| + i]) {
      assert shown[i] == all[|all| - |rows| + i];
    }
  }
}
