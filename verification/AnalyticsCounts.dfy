/** Which clicks the analytics queries count, written out over the stored rows. */
module AnalyticsCounts {
  import opened Domain
  import opened Analytics

  /** The positions of the clicks that have the property. */
  function Where(clicks: seq<ClickEvent>, p: ClickEvent -> bool): set<nat> {
    set i: nat | 0 <= i < |clicks| && p(clicks[i])
  }

  function Shifted(s: set<nat>): set<nat> {
    set i | i in s :: i + 1
  }

  lemma InShifted(s: set<nat>, j: nat)
    ensures j in Shifted(s) <==> j > 0 && j - 1 in s
  {
    if j > 0 && j - 1 in s {
      var i := j - 1;
      assert i in s && i + 1 == j;
    }
  }

  lemma {:induction false} ShiftKeepsSize(s: set<nat>)
    ensures |Shifted(s)| == |s|
    decreases |s|
  {
    if s != {} {
      var i :| i in s;
      ShiftKeepsSize(s - {i});
      forall j: nat ensures j in Shifted(s) <==> j in Shifted(s - {i}) || j == i + 1 {
        InShifted(s, j);
        InShifted(s - {i}, j);
      }
      InShifted(s - {i}, i + 1);
      assert Shifted(s) == Shifted(s - {i}) + {i + 1};
    }
  }

  lemma WhereSplits(clicks: seq<ClickEvent>, p: ClickEvent -> bool)
    requires clicks != []
    ensures |Where(clicks, p)| == (if p(clicks[0]) then 1 else 0) + |Where(clicks[1..], p)|
  {
    var rest := Where(clicks[1..], p);
    ShiftKeepsSize(rest);
    forall i: nat ensures i in Where(clicks, p) <==> i in Shifted(rest) || (i == 0 && p(clicks[0])) {
      InShifted(rest, i);
      if 0 < i < |clicks| { assert clicks[1..][i - 1] == clicks[i]; }
    }
    InShifted(rest, 0);
    assert Where(clicks, p) == Shifted(rest) + if p(clicks[0]) then {0} else {};
  }

  /** How often a label occurs among the selected clicks. */
  lemma {:induction false} CountIsWhere<T(!new)>(clicks: seq<ClickEvent>, linkID: string, from: int, till: int,
                                                  key: ClickEvent -> T, tag: T, p: ClickEvent -> bool)
    requires forall e :: p(e) <==> e.linkID == linkID && from <= e.clickedAt && e.clickedAt <= till && key(e) == tag
    ensures Count(Labels(Selected(clicks, linkID, from, till), key), tag) == |Where(clicks, p)|
  {
    if clicks != [] {
      CountIsWhere(clicks[1..], linkID, from, till, key, tag, p);
      WhereSplits(clicks, p);
      var rest := Selected(clicks[1..], linkID, from, till);
      assert Labels([clicks[0]] + rest, key)[1..] == Labels(rest, key);
      assert [] + rest == rest;
    }
  }

  /** The total is the number of stored clicks of the link from the one time to the other, both included. */
  lemma TotalIsCount(clicks: seq<ClickEvent>, linkID: string, from: int, till: int)
    ensures TotalClicks(clicks, linkID, from, till)
         == |set i: nat | 0 <= i < |clicks| && clicks[i].linkID == linkID
                          && from <= clicks[i].clickedAt && clicks[i].clickedAt <= till|
  {
    var key, p := (e: ClickEvent) => 0, (e: ClickEvent) => e.linkID == linkID && from <= e.clickedAt
        && e.clickedAt <= till;
    CountIsWhere(clicks, linkID, from, till, key, 0, p);
    CountOfAll(Labels(Selected(clicks, linkID, from, till), key), 0);
    assert Where(clicks, p) == set i: nat | 0 <= i < |clicks| && clicks[i].linkID == linkID
                                            && from <= clicks[i].clickedAt && clicks[i].clickedAt <= till;
  }

  lemma {:induction false} CountOfAll<T(!new)>(labels: seq<T>, tag: T)
    requires forall i :: 0 <= i < |labels| ==> labels[i] == tag
    ensures Count(labels, tag) == |labels|
  {
    if labels != [] { CountOfAll(labels[1..], tag); }
  }

  /** Where the selected clicks stand among the stored ones, counted from the given number on. */
  function Positions(clicks: seq<ClickEvent>, linkID: string, from: int, till: int, first: nat): seq<nat> {
    if clicks == [] then []
    else (if Counts(clicks[0], linkID, from, till) then [first] else [])
         + Positions(clicks[1..], linkID, from, till, first + 1)
  }

  predicate Counts(e: ClickEvent, linkID: string, from: int, till: int) {
    e.linkID == linkID && from <= e.clickedAt && e.clickedAt <= till
  }

  lemma {:induction false} SelectedAt(clicks: seq<ClickEvent>, linkID: string, from: int, till: int, first: nat, k: nat)
    ensures var selected, at := Selected(clicks, linkID, from, till), Positions(clicks, linkID, from, till, first);
            && |selected| == |at|
            && (k < |at| ==> first <= at[k] < first + |clicks| && selected[k] == clicks[at[k] - first])
  {
    if clicks != [] {
      SelectedAt(clicks[1..], linkID, from, till, first + 1, k);
      if k > 0 { SelectedAt(clicks[1..], linkID, from, till, first + 1, k - 1); }
    }
  }

  predicate Ascending(at: seq<nat>, first: nat) {
    && (forall k :: 0 <= k < |at| ==> first <= at[k])
    && (forall j, k :: 0 <= j < k < |at| ==> at[j] < at[k])
  }

  lemma AscendingFrom(rest: seq<nat>, first: nat)
    requires Ascending(rest, first + 1)
    ensures Ascending([first] + rest, first) && Ascending([] + rest, first)
  {
    assert [] + rest == rest;
  }

  lemma {:induction false} PositionsAscend(clicks: seq<ClickEvent>, linkID: string, from: int, till: int, first: nat)
    ensures Ascending(Positions(clicks, linkID, from, till, first), first)
  {
    if clicks != [] {
      PositionsAscend(clicks[1..], linkID, from, till, first + 1);
      AscendingFrom(Positions(clicks[1..], linkID, from, till, first + 1), first);
    }
  }

  lemma PositionSplits(clicks: seq<ClickEvent>, linkID: string, from: int, till: int, first: nat, x: nat)
    requires clicks != []
    ensures x in Positions(clicks, linkID, from, till, first) <==>
              || (x == first && Counts(clicks[0], linkID, from, till))
              || x in Positions(clicks[1..], linkID, from, till, first + 1)
  {
  }

  lemma NotBefore(clicks: seq<ClickEvent>, linkID: string, from: int, till: int, first: nat, x: nat)
    requires x < first
    ensures x !in Positions(clicks, linkID, from, till, first)
  {
    hide Positions;
    PositionsAscend(clicks, linkID, from, till, first);
  }

  lemma {:induction false} IsPosition(clicks: seq<ClickEvent>, linkID: string, from: int, till: int, first: nat, i: nat)
    requires i < |clicks|
    ensures first + i in Positions(clicks, linkID, from, till, first) <==> Counts(clicks[i], linkID, from, till)
  {
    hide Positions, Counts;
    PositionSplits(clicks, linkID, from, till, first, first + i);
    if i == 0 {
      NotBefore(clicks[1..], linkID, from, till, first + 1, first);
    } else {
      IsPosition(clicks[1..], linkID, from, till, first + 1, i - 1);
      assert clicks[1..][i - 1] == clicks[i];
    }
  }

  /** The selected clicks are exactly those of the link and the range, in the order in which they are stored. */
  lemma SelectedInOrder(clicks: seq<ClickEvent>, linkID: string, from: int, till: int)
    ensures var selected, at := Selected(clicks, linkID, from, till), Positions(clicks, linkID, from, till, 0);
            && |selected| == |at|
            && (forall k :: 0 <= k < |at| ==> 0 <= at[k] < |clicks| && selected[k] == clicks[at[k]])
            && (forall j, k :: 0 <= j < k < |at| ==> at[j] < at[k])
            && (forall i :: 0 <= i < |clicks| ==>
                  var e := clicks[i];
                  i in at <==> e.linkID == linkID && from <= e.clickedAt && e.clickedAt <= till)
  {
    hide Selected, Positions;
    var at := Positions(clicks, linkID, from, till, 0);
    SelectedAt(clicks, linkID, from, till, 0, 0);
    PositionsAscend(clicks, linkID, from, till, 0);
    forall k | 0 <= k < |at| ensures 0 <= at[k] < |clicks| && Selected(clicks, linkID, from, till)[k] == clicks[at[k]] {
      SelectedAt(clicks, linkID, from, till, 0, k);
    }
    forall i | 0 <= i < |clicks| ensures i in at <==> Counts(clicks[i], linkID, from, till) {
      IsPosition(clicks, linkID, from, till, 0, i);
    }
  }

  // ------------------------------------------------------------------ the counts by label

  lemma ItemIsWhere<T(!new)>(items: seq<Item<T>>, clicks: seq<ClickEvent>, linkID: string, from: int, till: int,
                             key: ClickEvent -> T, n: nat, p: ClickEvent -> bool)
    requires IsGrouped(items, Labels(Selected(clicks, linkID, from, till), key)) && n < |items|
    requires forall e :: p(e) <==>
               e.linkID == linkID && from <= e.clickedAt && e.clickedAt <= till && key(e) == items[n].key
    ensures items[n].clicks == |Where(clicks, p)|
  {
    CountIsWhere(clicks, linkID, from, till, key, items[n].key, p);
  }

  /** An item counts the stored clicks of the link and the range that have its label. */
  lemma ItemCounts<T(!new)>(items: seq<Item<T>>, clicks: seq<ClickEvent>, linkID: string, from: int, till: int,
                            key: ClickEvent -> T, n: nat)
    requires IsGrouped(items, Labels(Selected(clicks, linkID, from, till), key)) && n < |items|
    ensures items[n].clicks
         == |set i: nat | 0 <= i < |clicks| && clicks[i].linkID == linkID && from <= clicks[i].clickedAt
                          && clicks[i].clickedAt <= till && key(clicks[i]) == items[n].key|
  {
    var p := (e: ClickEvent) =>
      e.linkID == linkID && from <= e.clickedAt && e.clickedAt <= till && key(e) == items[n].key;
    ItemIsWhere(items, clicks, linkID, from, till, key, n, p);
    assert Where(clicks, p) == set i: nat | 0 <= i < |clicks| && clicks[i].linkID == linkID
                                            && from <= clicks[i].clickedAt && clicks[i].clickedAt <= till
                                            && key(clicks[i]) == items[n].key;
  }

  /** The keys of the referrer, the location and the browser breakdown. */
  function ReferrerLabel(e: ClickEvent): string {
    if e.referer == "" then "direct" else e.referer
  }

  function LocationLabel(e: ClickEvent): string {
    e.country
  }

  function BrowserLabel(e: ClickEvent): string {
    if e.browser == "" then "Unknown" else e.browser
  }

  /** A click has a label in the source breakdown: the name of its source, if there still is one, or else its own
      source name, or else "direct". */
  predicate ShownAs(e: ClickEvent, sources: seq<Source>, shown: string) {
    if exists k :: 0 <= k < |sources| && e.sourceLinkID == Some(sources[k].id)
    then exists k :: 0 <= k < |sources| && e.sourceLinkID == Some(sources[k].id) && sources[k].name == shown
    else shown == if e.sourceName == "" then "direct" else e.sourceName
  }

  lemma SourceKey(e: ClickEvent, sources: seq<Source>, shown: string)
    requires DistinctIDs(sources)
    ensures SourceLabel((e, JoinedSource(e, sources))) == shown <==> ShownAs(e, sources, shown)
  {
    AtMostOneMatch(e, sources);
    var found := Matches(e, sources);
    if found != [] {
      assert found[0] in found;
      var k :| 0 <= k < |sources| && sources[k] == found[0];
      assert e.sourceLinkID == Some(sources[k].id);
      forall j | 0 <= j < |sources| && e.sourceLinkID == Some(sources[j].id) ensures j == k {}
    } else {
      forall k | 0 <= k < |sources| ensures e.sourceLinkID != Some(sources[k].id) {
        assert sources[k] in sources && sources[k] !in found;
      }
    }
  }

  lemma SourceLabelsAreLabels(clicks: seq<ClickEvent>, sources: seq<Source>, linkID: string, from: int, till: int,
                              key: ClickEvent -> string)
    requires DistinctIDs(sources) && forall e :: key(e) == SourceLabel((e, JoinedSource(e, sources)))
    ensures SourceLabels(clicks, sources, linkID, from, till) == Labels(Selected(clicks, linkID, from, till), key)
  {
    LeftJoinIsRowwise(Selected(clicks, linkID, from, till), sources);
  }

  /** An item of the source breakdown counts the stored clicks of the link and the range that are shown so. */
  lemma SourceItemCounts(items: seq<Item<string>>, clicks: seq<ClickEvent>, sources: seq<Source>, linkID: string,
                         from: int, till: int, n: nat)
    requires DistinctIDs(sources) && IsGrouped(items, SourceLabels(clicks, sources, linkID, from, till)) && n < |items|
    ensures items[n].clicks
         == |set i: nat | 0 <= i < |clicks| && clicks[i].linkID == linkID && from <= clicks[i].clickedAt
                          && clicks[i].clickedAt <= till && ShownAs(clicks[i], sources, items[n].key)|
  {
    hide ShownAs, IsGrouped;
    var key := (e: ClickEvent) => SourceLabel((e, JoinedSource(e, sources)));
    var p := (e: ClickEvent) =>
      e.linkID == linkID && from <= e.clickedAt && e.clickedAt <= till && ShownAs(e, sources, items[n].key);
    SourceLabelsAreLabels(clicks, sources, linkID, from, till, key);
    forall e: ClickEvent ensures key(e) == items[n].key <==> ShownAs(e, sources, items[n].key) {
      SourceKey(e, sources, items[n].key);
    }
    hide JoinedSource, SourceLabel;
    ItemIsWhere(items, clicks, linkID, from, till, key, n, p);
    assert Where(clicks, p) == set i: nat | 0 <= i < |clicks| && clicks[i].linkID == linkID
                                            && from <= clicks[i].clickedAt && clicks[i].clickedAt <= till
                                            && ShownAs(clicks[i], sources, items[n].key);
  }

  /** An item of the referrer breakdown counts the stored clicks of the link and the range with its value. */
  lemma ReferrerItemCounts(items: seq<Item<string>>, clicks: seq<ClickEvent>, linkID: string, from: int, till: int,
                           n: nat)
    requires IsGrouped(items, Labels(Selected(clicks, linkID, from, till), e => ReferrerLabel(e))) && n < |items|
    ensures items[n].clicks
         == |set i: nat | 0 <= i < |clicks| && clicks[i].linkID == linkID && from <= clicks[i].clickedAt
                          && clicks[i].clickedAt <= till
                          && (if clicks[i].referer == "" then "direct" else clicks[i].referer) == items[n].key|
  {
    hide IsGrouped;
    var p := (e: ClickEvent) =>
      e.linkID == linkID && from <= e.clickedAt && e.clickedAt <= till
          && (if e.referer == "" then "direct" else e.referer) == items[n].key;
    ItemIsWhere(items, clicks, linkID, from, till, e => ReferrerLabel(e), n, p);
    assert Where(clicks, p) == set i: nat | 0 <= i < |clicks| && clicks[i].linkID == linkID
                                            && from <= clicks[i].clickedAt && clicks[i].clickedAt <= till
                                            && (if clicks[i].referer == "" then "direct" else clicks[i].referer)
                                               == items[n].key;
  }

  /** An item of the location breakdown counts the stored clicks of the link and the range with its value. */
  lemma LocationItemCounts(items: seq<Item<string>>, clicks: seq<ClickEvent>, linkID: string, from: int, till: int,
                           n: nat)
    requires IsGrouped(items, Labels(Selected(clicks, linkID, from, till), e => LocationLabel(e))) && n < |items|
    ensures items[n].clicks
         == |set i: nat | 0 <= i < |clicks| && clicks[i].linkID == linkID && from <= clicks[i].clickedAt
                          && clicks[i].clickedAt <= till
                          && clicks[i].country == items[n].key|
  {
    hide IsGrouped;
    var p := (e: ClickEvent) =>
      e.linkID == linkID && from <= e.clickedAt && e.clickedAt <= till && e.country == items[n].key;
    ItemIsWhere(items, clicks, linkID, from, till, e => LocationLabel(e), n, p);
    assert Where(clicks, p) == set i: nat | 0 <= i < |clicks| && clicks[i].linkID == linkID
                                            && from <= clicks[i].clickedAt && clicks[i].clickedAt <= till
                                            && clicks[i].country == items[n].key;
  }

  /** An item of the browser breakdown counts the stored clicks of the link and the range with its value. */
  lemma BrowserItemCounts(items: seq<Item<string>>, clicks: seq<ClickEvent>, linkID: string, from: int, till: int,
                          n: nat)
    requires IsGrouped(items, Labels(Selected(clicks, linkID, from, till), e => BrowserLabel(e))) && n < |items|
    ensures items[n].clicks
         == |set i: nat | 0 <= i < |clicks| && clicks[i].linkID == linkID && from <= clicks[i].clickedAt
                          && clicks[i].clickedAt <= till
                          && (if clicks[i].browser == "" then "Unknown" else clicks[i].browser) == items[n].key|
  {
    hide IsGrouped;
    var p := (e: ClickEvent) =>
      e.linkID == linkID && from <= e.clickedAt && e.clickedAt <= till
          && (if e.browser == "" then "Unknown" else e.browser) == items[n].key;
    ItemIsWhere(items, clicks, linkID, from, till, e => BrowserLabel(e), n, p);
    assert Where(clicks, p) == set i: nat | 0 <= i < |clicks| && clicks[i].linkID == linkID
                                            && from <= clicks[i].clickedAt && clicks[i].clickedAt <= till
                                            && (if clicks[i].browser == "" then "Unknown" else clicks[i].browser)
                                               == items[n].key;
  }

  /** The list of links counts each link's stored clicks. */
  lemma {:induction false} ClicksOfIsCount(clicks: seq<ClickEvent>, link: string, p: ClickEvent -> bool)
    requires forall e :: p(e) <==> e.linkID == link
    ensures |ClicksOf(clicks, link)| == |Where(clicks, p)|
  {
    if clicks != [] {
      ClicksOfIsCount(clicks[1..], link, p);
      WhereSplits(clicks, p);
    }
  }

  lemma ListedCount(clicks: seq<ClickEvent>, memberships: seq<Membership>, group: string, link: string)
    requires DistinctMemberships(memberships)
    ensures ListedClicks(clicks, memberships, group, link)
         == if group == "" || Membership(group, link) in memberships
            then Some(|set i: nat | 0 <= i < |clicks| && clicks[i].linkID == link|) else None
  {
    var p := (e: ClickEvent) => e.linkID == link;
    GroupJoinCountsOnce(clicks, memberships, group, link);
    ClicksOfIsCount(clicks, link, p);
    assert Where(clicks, p) == set i: nat | 0 <= i < |clicks| && clicks[i].linkID == link;
  }
}
