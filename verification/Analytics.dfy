/** The analytics queries as functions of the stored rows, and the totals they agree on. */
module Analytics {
  import opened Domain

  /** A row of source_links, as far as the queries read it; `id` is the primary key. */
  datatype Source = Source(id: string, name: string)

  /** A row of link_groups; the pair is the primary key. */
  datatype Membership = Membership(group: string, link: string)

  datatype Item<T> = Item(key: T, clicks: nat)

  predicate DistinctIDs(sources: seq<Source>) {
    forall i, j :: 0 <= i < j < |sources| ==> sources[i].id != sources[j].id
  }

  // ------------------------------------------------------------------- the statements

  /** WHERE link_id = $1 AND clicked_at >= $2 AND clicked_at <= $3. */
  predicate InRange(e: ClickEvent, linkID: string, from: int, till: int) {
    e.linkID == linkID && from <= e.clickedAt <= till
  }

  function Selected(clicks: seq<ClickEvent>, linkID: string, from: int, till: int): seq<ClickEvent> {
    if clicks == [] then []
    else
      (if InRange(clicks[0], linkID, from, till) then [clicks[0]] else []) + Selected(clicks[1..], linkID, from, till)
  }

  function TotalClicks(clicks: seq<ClickEvent>, linkID: string, from: int, till: int): nat {
    |Selected(clicks, linkID, from, till)|
  }

  /** The sources a left join pairs with a click. */
  function Matches(e: ClickEvent, sources: seq<Source>): seq<Source> {
    if sources == [] then []
    else (if e.sourceLinkID == Some(sources[0].id) then [sources[0]] else []) + Matches(e, sources[1..])
  }

  /** The rows a left join makes of one click. */
  function JoinOne(e: ClickEvent, sources: seq<Source>): seq<(ClickEvent, Option<Source>)> {
    var found := Matches(e, sources);
    if found == [] then [(e, None)] else seq(|found|, i requires 0 <= i < |found| => (e, Some(found[i])))
  }

  /** click_events LEFT JOIN source_links ON sl.id = ce.source_link_id. */
  function LeftJoin(clicks: seq<ClickEvent>, sources: seq<Source>): seq<(ClickEvent, Option<Source>)> {
    if clicks == [] then [] else JoinOne(clicks[0], sources) + LeftJoin(clicks[1..], sources)
  }

  /** NULLIF(ce.source_name, '') with 'direct' for null. */
  function OwnLabel(e: ClickEvent): string {
    if e.sourceName == "" then "direct" else e.sourceName
  }

  /** COALESCE(sl.source_name, NULLIF(ce.source_name, ''), 'direct'). */
  function SourceLabel(row: (ClickEvent, Option<Source>)): string {
    match row.1
    case Some(source) => source.name
    case None => OwnLabel(row.0)
  }

  function Labels<R, T>(rows: seq<R>, key: R -> T): (r: seq<T>)
    ensures |r| == |rows| && forall i :: 0 <= i < |rows| ==> r[i] == key(rows[i])
  {
    seq(|rows|, i requires 0 <= i < |rows| => key(rows[i]))
  }

  function Count<T(==,!new)>(labels: seq<T>, key: T): nat {
    if labels == [] then 0 else (if labels[0] == key then 1 else 0) + Count(labels[1..], key)
  }

  /** GROUP BY label: one item for each label that occurs, with how often it occurs. */
  predicate IsGrouped<T(==,!new)>(items: seq<Item<T>>, labels: seq<T>) {
    && (forall i, j :: 0 <= i < j < |items| ==> items[i].key != items[j].key)
    && (forall i :: 0 <= i < |items| ==> items[i].key in labels && items[i].clicks == Count(labels, items[i].key))
    && (forall k :: 0 <= k < |labels| ==> exists i :: 0 <= i < |items| && items[i].key == labels[k])
  }

  predicate Descending<T>(items: seq<Item<T>>) {
    forall i, j :: 0 <= i < j < |items| ==> items[i].clicks >= items[j].clicks
  }

  /** LIMIT n. */
  function Limited<T>(items: seq<Item<T>>, n: nat): seq<Item<T>> {
    if |items| <= n then items else items[..n]
  }

  function Sum<T>(items: seq<Item<T>>): nat {
    if items == [] then 0 else items[0].clicks + Sum(items[1..])
  }

  function Distinct<T(==,!new)>(labels: seq<T>): set<T> {
    set key | key in labels
  }

  // ------------------------------------------------------------------- counting by group

  function Others<T(==,!new)>(labels: seq<T>, key: T): (r: seq<T>)
    ensures forall x :: x in r <==> x in labels && x != key
  {
    if labels == [] then [] else (if labels[0] == key then [] else [labels[0]]) + Others(labels[1..], key)
  }

  lemma {:induction false} OthersCounts<T(!new)>(labels: seq<T>, key: T, other: T)
    ensures |labels| == Count(labels, key) + |Others(labels, key)|
    ensures other != key ==> Count(Others(labels, key), other) == Count(labels, other)
  {
    if labels != [] {
      OthersCounts(labels[1..], key, other);
      var rest := Others(labels[1..], key);
      assert ([labels[0]] + rest)[1..] == rest;
      assert [] + rest == rest;
    }
  }

  lemma {:induction false} Occurs<T(!new)>(labels: seq<T>, key: T)
    requires key in labels
    ensures Count(labels, key) > 0
  {
    if labels[0] != key { Occurs(labels[1..], key); }
  }

  lemma RestIsGrouped<T(!new)>(items: seq<Item<T>>, labels: seq<T>)
    requires IsGrouped(items, labels) && items != []
    ensures IsGrouped(items[1..], Others(labels, items[0].key))
  {
    var key, rest := items[0].key, items[1..];
    var others := Others(labels, key);
    forall i | 0 <= i < |rest| ensures rest[i].key in others && rest[i].clicks == Count(others, rest[i].key) {
      assert rest[i] == items[i + 1];
      OthersCounts(labels, key, rest[i].key);
    }
    forall k | 0 <= k < |others| ensures exists i :: 0 <= i < |rest| && rest[i].key == others[k] {
      assert others[k] in others;
      var m :| 0 <= m < |labels| && labels[m] == others[k];
      var i :| 0 <= i < |items| && items[i].key == labels[m];
      assert rest[i - 1] == items[i];
    }
  }

  lemma DistinctSplits<T(!new)>(labels: seq<T>, key: T)
    requires key in labels
    ensures |Distinct(labels)| == |Distinct(Others(labels, key))| + 1
  {
    assert Distinct(labels) == Distinct(Others(labels, key)) + {key};
  }

  /** Grouping loses and invents nothing: the counts add up to the number of rows. */
  lemma {:induction false} GroupsAddUp<T(!new)>(items: seq<Item<T>>, labels: seq<T>)
    requires IsGrouped(items, labels)
    ensures Sum(items) == |labels|
    ensures |items| == |Distinct(labels)|
    decreases |items|
  {
    if items == [] {
      assert labels == [];
      assert Distinct(labels) == {};
    } else {
      RestIsGrouped(items, labels);
      GroupsAddUp(items[1..], Others(labels, items[0].key));
      OthersCounts(labels, items[0].key, items[0].key);
      DistinctSplits(labels, items[0].key);
    }
  }

  lemma {:induction false} SumSplits<T>(items: seq<Item<T>>, n: nat)
    requires n <= |items|
    ensures Sum(items) == Sum(items[..n]) + Sum(items[n..])
  {
    if n == 0 {
      assert items[..0] == [] && items[0..] == items;
    } else {
      SumSplits(items[1..], n - 1);
      assert items[..n][1..] == items[1..][..n - 1] && items[n..] == items[1..][n - 1..];
    }
  }

  /** GROUP BY label ORDER BY clicks DESC LIMIT n accounts for at most all rows, and for all of them exactly
      when there are at most n labels. */
  lemma TopAccountsFor<T(!new)>(all: seq<Item<T>>, labels: seq<T>, n: nat)
    requires IsGrouped(all, labels) && Descending(all)
    ensures Sum(Limited(all, n)) <= |labels|
    ensures Sum(Limited(all, n)) == |labels| <==> |Distinct(labels)| <= n
  {
    GroupsAddUp(all, labels);
    if |all| > n {
      SumSplits(all, n);
      Occurs(labels, all[n].key);
    }
  }

  /** A label that the limit leaves out has no more rows than any label it keeps. */
  lemma TopKeepsLargest<T(!new)>(all: seq<Item<T>>, labels: seq<T>, n: nat, i: nat, key: T)
    requires IsGrouped(all, labels) && Descending(all) && i < |Limited(all, n)|
    requires key in labels && forall j :: 0 <= j < |Limited(all, n)| ==> all[j].key != key
    ensures Count(labels, key) <= all[i].clicks
  {
    var k :| 0 <= k < |labels| && labels[k] == key;
    var m :| 0 <= m < |all| && all[m].key == labels[k];
    assert i < m;
  }

  // -------------------------------------------------------------------------- the joins

  lemma {:induction false} AtMostOneMatch(e: ClickEvent, sources: seq<Source>)
    requires DistinctIDs(sources)
    ensures |Matches(e, sources)| <= 1
    ensures forall s :: s in Matches(e, sources) <==> s in sources && e.sourceLinkID == Some(s.id)
  {
    if sources != [] {
      AtMostOneMatch(e, sources[1..]);
      var rest := Matches(e, sources[1..]);
      assert forall s :: s in sources[1..] ==> s.id != sources[0].id;
      assert e.sourceLinkID == Some(sources[0].id) ==> rest == [] by {
        if rest != [] { assert rest[0] in rest; }
      }
    }
  }

  /** The source a click's row carries after the join. */
  function JoinedSource(e: ClickEvent, sources: seq<Source>): Option<Source> {
    var found := Matches(e, sources);
    if found == [] then None else Some(found[0])
  }

  lemma JoinOneIsOne(e: ClickEvent, sources: seq<Source>)
    requires DistinctIDs(sources)
    ensures JoinOne(e, sources) == [(e, JoinedSource(e, sources))]
  {
    AtMostOneMatch(e, sources);
  }

  /** The left join on the primary key pairs each click with one row: it inflates no count. */
  lemma {:induction false} LeftJoinIsRowwise(clicks: seq<ClickEvent>, sources: seq<Source>)
    requires DistinctIDs(sources)
    ensures |LeftJoin(clicks, sources)| == |clicks|
    ensures forall i :: 0 <= i < |clicks| ==>
            LeftJoin(clicks, sources)[i] == (clicks[i], JoinedSource(clicks[i], sources))
  {
    hide JoinOne, JoinedSource;
    if clicks != [] {
      JoinOneIsOne(clicks[0], sources);
      LeftJoinIsRowwise(clicks[1..], sources);
    }
  }

  /** The labels GetSourceBreakdown groups by. */
  function SourceLabels(clicks: seq<ClickEvent>, sources: seq<Source>, linkID: string, from: int,
                        till: int): seq<string> {
    Labels(LeftJoin(Selected(clicks, linkID, from, till), sources), row => SourceLabel(row))
  }

  /** The source breakdown adds up to the summary's total. */
  lemma SourceBreakdownAddsUp(items: seq<Item<string>>, clicks: seq<ClickEvent>, sources: seq<Source>, linkID: string,
                              from: int, till: int)
    requires DistinctIDs(sources) && IsGrouped(items, SourceLabels(clicks, sources, linkID, from, till))
    ensures Sum(items) == TotalClicks(clicks, linkID, from, till)
  {
    GroupsAddUp(items, SourceLabels(clicks, sources, linkID, from, till));
    LeftJoinIsRowwise(Selected(clicks, linkID, from, till), sources);
  }

  /** So does the time series, whatever date_trunc does at the chosen granularity. */
  lemma TimeSeriesAddsUp<T(!new)>(points: seq<Item<T>>, clicks: seq<ClickEvent>, linkID: string, from: int, till: int,
                                  trunc: int -> T)
    requires IsGrouped(points, Labels(Selected(clicks, linkID, from, till), (e: ClickEvent) => trunc(e.clickedAt)))
    ensures Sum(points) == TotalClicks(clicks, linkID, from, till)
  {
    GroupsAddUp(points, Labels(Selected(clicks, linkID, from, till), (e: ClickEvent) => trunc(e.clickedAt)));
  }

  /** The referrer, location and browser breakdowns keep the top 20 labels. */
  lemma TopTwentyAccountsFor(all: seq<Item<string>>, clicks: seq<ClickEvent>, linkID: string, from: int, till: int,
                             key: ClickEvent -> string)
    requires IsGrouped(all, Labels(Selected(clicks, linkID, from, till), key)) && Descending(all)
    ensures Sum(Limited(all, 20)) <= TotalClicks(clicks, linkID, from, till)
    ensures Sum(Limited(all, 20)) == TotalClicks(clicks, linkID, from, till)
       <==> |Distinct(Labels(Selected(clicks, linkID, from, till), key))| <= 20
  {
    TopAccountsFor(all, Labels(Selected(clicks, linkID, from, till), key), 20);
  }

  // ------------------------------------------------------------------ deleting a source

  /** ON DELETE SET NULL. */
  function Unsourced(e: ClickEvent, id: string): ClickEvent {
    if e.sourceLinkID == Some(id) then e.(sourceLinkID := None) else e
  }

  function ClicksWithout(clicks: seq<ClickEvent>, id: string): seq<ClickEvent> {
    Labels(clicks, e => Unsourced(e, id))
  }

  function SourcesWithout(sources: seq<Source>, id: string): (r: seq<Source>)
    ensures forall s :: s in r <==> s in sources && s.id != id
  {
    if sources == [] then [] else (if sources[0].id == id then [] else [sources[0]]) + SourcesWithout(sources[1..], id)
  }

  lemma {:induction false} SelectedWithout(clicks: seq<ClickEvent>, id: string, linkID: string, from: int, till: int)
    ensures Selected(ClicksWithout(clicks, id), linkID, from, till)
            == ClicksWithout(Selected(clicks, linkID, from, till), id)
  {
    if clicks != [] {
      SelectedWithout(clicks[1..], id, linkID, from, till);
      assert ClicksWithout(clicks, id)[1..] == ClicksWithout(clicks[1..], id);
      var rest := Selected(clicks[1..], linkID, from, till);
      assert ClicksWithout([clicks[0]] + rest, id) == [Unsourced(clicks[0], id)] + ClicksWithout(rest, id);
      assert [] + rest == rest;
    }
  }

  lemma {:induction false} WithoutStaysDistinct(sources: seq<Source>, id: string)
    requires DistinctIDs(sources)
    ensures DistinctIDs(SourcesWithout(sources, id))
  {
    if sources != [] {
      WithoutStaysDistinct(sources[1..], id);
      var rest := SourcesWithout(sources[1..], id);
      forall j | 0 <= j < |rest| ensures rest[j].id != sources[0].id {
        assert rest[j] in rest;
        var k :| 1 <= k < |sources| && sources[k] == rest[j];
      }
    }
  }

  lemma {:induction false} MatchesWithout(e: ClickEvent, sources: seq<Source>, id: string)
    ensures Matches(Unsourced(e, id), SourcesWithout(sources, id)) == if e.sourceLinkID == Some(id) then []
            else Matches(e, sources)
  {
    if sources != [] {
      MatchesWithout(e, sources[1..], id);
      var rest := SourcesWithout(sources[1..], id);
      assert ([sources[0]] + rest)[1..] == rest;
      assert [] + rest == rest;
    }
  }

  /** Deleting a source relabels its clicks by their own source name, leaves every other label alone,
      and changes no total. */
  lemma DeletingSourceRelabels(clicks: seq<ClickEvent>, sources: seq<Source>, id: string, linkID: string, from: int,
                               till: int)
    requires DistinctIDs(sources)
    ensures TotalClicks(ClicksWithout(clicks, id), linkID, from, till) == TotalClicks(clicks, linkID, from, till)
    ensures var selected := Selected(clicks, linkID, from, till);
            var before := SourceLabels(clicks, sources, linkID, from, till);
            var after := SourceLabels(ClicksWithout(clicks, id), SourcesWithout(sources, id), linkID, from, till);
            && |before| == |after| == |selected|
            && forall i :: 0 <= i < |selected| ==>
                 after[i] == if selected[i].sourceLinkID == Some(id) then OwnLabel(selected[i]) else before[i]
  {
    var selected := Selected(clicks, linkID, from, till);
    SelectedWithout(clicks, id, linkID, from, till);
    WithoutStaysDistinct(sources, id);
    LeftJoinIsRowwise(selected, sources);
    LeftJoinIsRowwise(ClicksWithout(selected, id), SourcesWithout(sources, id));
    forall i | 0 <= i < |selected|
      ensures JoinedSource(Unsourced(selected[i], id), SourcesWithout(sources, id))
           == if selected[i].sourceLinkID == Some(id) then None else JoinedSource(selected[i], sources)
    {
      MatchesWithout(selected[i], sources, id);
    }
  }

  // ----------------------------------------------------------------- the list of links

  function ClicksOf(clicks: seq<ClickEvent>, link: string): seq<ClickEvent> {
    if clicks == [] then [] else (if clicks[0].linkID == link then [clicks[0]] else []) + ClicksOf(clicks[1..], link)
  }

  predicate DistinctMemberships(memberships: seq<Membership>) {
    forall i, j :: 0 <= i < j < |memberships| ==> memberships[i] != memberships[j]
  }

  /** One link LEFT JOIN click_events: a row for each of its clicks, or one without any. */
  function WithClicks(clicks: seq<ClickEvent>, link: string): seq<Option<ClickEvent>> {
    var found := ClicksOf(clicks, link);
    if found == [] then [None] else seq(|found|, i requires 0 <= i < |found| => Some(found[i]))
  }

  /** The copies of a row that JOIN link_groups makes under the condition on the group. */
  function JoinGroup<R>(row: R, memberships: seq<Membership>, group: string, link: string): seq<R> {
    if memberships == [] then []
    else
      (if memberships[0] == Membership(group, link) then [row] else [])
      + JoinGroup(row, memberships[1..], group, link)
  }

  function JoinGroups<R>(rows: seq<R>, memberships: seq<Membership>, group: string, link: string): seq<R> {
    if rows == [] then []
    else JoinGroup(rows[0], memberships, group, link) + JoinGroups(rows[1..], memberships, group, link)
  }

  /** COUNT(ce.id). */
  function CountClicks(rows: seq<Option<ClickEvent>>): nat {
    if rows == [] then 0 else (if rows[0].Some? then 1 else 0) + CountClicks(rows[1..])
  }

  /** The link's total in the list; None when no joined row is left of it, so that it is not listed. */
  function ListedClicks(clicks: seq<ClickEvent>, memberships: seq<Membership>, group: string,
                        link: string): Option<nat> {
    var rows := WithClicks(clicks, link);
    var joined := if group == "" then rows else JoinGroups(rows, memberships, group, link);
    if joined == [] then None else Some(CountClicks(joined))
  }

  lemma {:induction false} JoinGroupIsOne<R>(row: R, memberships: seq<Membership>, group: string, link: string)
    requires DistinctMemberships(memberships)
    ensures JoinGroup(row, memberships, group, link) == if Membership(group, link) in memberships then [row] else []
  {
    if memberships != [] {
      JoinGroupIsOne(row, memberships[1..], group, link);
      assert memberships[0] !in memberships[1..];
    }
  }

  lemma {:induction false} JoinGroupsIsFilter<R>(rows: seq<R>, memberships: seq<Membership>, group: string,
                                                 link: string)
    requires DistinctMemberships(memberships)
    ensures JoinGroups(rows, memberships, group, link) == if Membership(group, link) in memberships then rows else []
  {
    if rows != [] {
      JoinGroupIsOne(rows[0], memberships, group, link);
      JoinGroupsIsFilter(rows[1..], memberships, group, link);
    }
  }

  lemma {:induction false} CountOfClicks(found: seq<ClickEvent>)
    ensures CountClicks(seq(|found|, i requires 0 <= i < |found| => Some(found[i]))) == |found|
  {
    if found != [] {
      CountOfClicks(found[1..]);
      var rows := seq(|found|, i requires 0 <= i < |found| => Some(found[i]));
      var rest := found[1..];
      assert rows[1..] == seq(|rest|, i requires 0 <= i < |rest| => Some(rest[i]));
    }
  }

  /** The group join lists exactly the group's links and inflates no count; a link without clicks is
      listed with none. */
  lemma GroupJoinCountsOnce(clicks: seq<ClickEvent>, memberships: seq<Membership>, group: string, link: string)
    requires DistinctMemberships(memberships)
    ensures ListedClicks(clicks, memberships, group, link)
         == if group == "" || Membership(group, link) in memberships then Some(|ClicksOf(clicks, link)|) else None
  {
    JoinGroupsIsFilter(WithClicks(clicks, link), memberships, group, link);
    CountOfClicks(ClicksOf(clicks, link));
  }
}
