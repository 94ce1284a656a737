/** Which webhooks a filter selects and in which order they are listed. */
module WebhookSearch {
  import opened Wrappers
  import opened DeliveryModel
  import opened Arithmetic
  import opened Text
  import opened LikePattern

  datatype WebhookFilter = WebhookFilter(
    source: string,
    status: string,
    query: string,
    from: Option<int>,
    to: Option<int>,
    sort: string)

  /** What the database decides: a payload's text, if it has one, and the case folding of ILIKE. */
  datatype Locale = Locale(payloadText: Bytes -> Option<string>, fold: char -> char)

  function StatusText(s: WebhookStatus): string {
    match s
    case Pending => "pending"
    case Processing => "processing"
    case Retrying => "retrying"
    case Delivered => "success"
    case Skipped => "skipped"
    case DeadLettered => "dead_lettered"
  }

  // ---------- Conditions ----------

  /** SQL's three truth values, and the error for a malformed pattern. */
  datatype Truth = Holds | Fails | Unknown | Malformed

  function Condition(b: bool): Truth {
    if b then Holds else Fails
  }

  function Or(a: Truth, b: Truth): Truth {
    if a.Malformed? || b.Malformed? then Malformed
    else if a.Holds? || b.Holds? then Holds
    else if a.Unknown? || b.Unknown? then Unknown
    else Fails
  }

  function TextMatches(l: Locale, text: Option<string>, pattern: string): Truth {
    match text
    case None => Unknown
    case Some(s) =>
      match ILike(s, pattern, l.fold)
      case None => Malformed
      case Some(b) => Condition(b)
  }

  function Searched(l: Locale, w: Webhook, pattern: string): Truth {
    Or(TextMatches(l, Some(w.source), pattern),
       Or(TextMatches(l, l.payloadText(w.payload), pattern),
          Or(TextMatches(l, Some(w.headers), pattern),
             Or(TextMatches(l, Some(w.lastError), pattern),
                TextMatches(l, Some(w.deadLetterReason), pattern)))))
  }

  function When(given: bool, condition: Truth): Truth {
    if given then condition else Holds
  }

  /** The conditions that a filter adds; a field that is not given adds none, which is as one that holds. */
  function Conditions(l: Locale, w: Webhook, f: WebhookFilter): seq<Truth> {
    [ When(f.source != "", Condition(w.source == TrimSpace(f.source))),
      When(f.status != "", Condition(StatusText(w.status) == TrimSpace(f.status))),
      When(f.query != "", Searched(l, w, SearchPattern(TrimSpace(f.query)))),
      if f.from.Some? then Condition(w.receivedAt >= f.from.value) else Holds,
      if f.to.Some? then Condition(w.receivedAt < f.to.value) else Holds ]
  }

  predicate Selected(l: Locale, w: Webhook, f: WebhookFilter) {
    forall i :: 0 <= i < |Conditions(l, w, f)| ==> Conditions(l, w, f)[i] == Holds
  }

  // ---------- What a filter means ----------

  /** The folded query occurs in the source, the payload's text if it has one, the headers, the last error or the
      reason of the dead letter. */
  ghost predicate Mentions(l: Locale, w: Webhook, query: string) {
    var q := Folded(query, l.fold);
    || Contains(Folded(w.source, l.fold), q)
    || (l.payloadText(w.payload).Some? && Contains(Folded(l.payloadText(w.payload).value, l.fold), q))
    || Contains(Folded(w.headers, l.fold), q)
    || Contains(Folded(w.lastError, l.fold), q)
    || Contains(Folded(w.deadLetterReason, l.fold), q)
  }

  lemma TextMatchesIffContained(l: Locale, text: Option<string>, query: string)
    requires KeepsSpecials(l.fold)
    ensures TextMatches(l, text, SearchPattern(query))
         == if text.None? then Unknown else Condition(Contains(Folded(text.value, l.fold), Folded(query, l.fold)))
  {
    if text.Some? {
      EscapeKeepsMeaningFolded(text.value, query, l.fold);
    }
  }

  lemma SearchedIffMentioned(l: Locale, w: Webhook, query: string)
    requires KeepsSpecials(l.fold)
    ensures Searched(l, w, SearchPattern(query)) != Malformed
    ensures Searched(l, w, SearchPattern(query)) == Holds <==> Mentions(l, w, query)
  {
    TextMatchesIffContained(l, Some(w.source), query);
    TextMatchesIffContained(l, l.payloadText(w.payload), query);
    TextMatchesIffContained(l, Some(w.headers), query);
    TextMatchesIffContained(l, Some(w.lastError), query);
    TextMatchesIffContained(l, Some(w.deadLetterReason), query);
  }

  lemma SelectedConditions(l: Locale, w: Webhook, f: WebhookFilter)
    requires KeepsSpecials(l.fold)
    ensures Malformed !in Conditions(l, w, f)
    ensures Selected(l, w, f) <==>
            && (f.source == "" || TrimSpace(f.source) == w.source)
            && (f.status == "" || TrimSpace(f.status) == StatusText(w.status))
            && (f.query == "" || Mentions(l, w, TrimSpace(f.query)))
            && (f.from.None? || f.from.value <= w.receivedAt)
            && (f.to.None? || w.receivedAt < f.to.value)
  {
    SearchedIffMentioned(l, w, TrimSpace(f.query));
    var c := Conditions(l, w, f);
    assert Selected(l, w, f) <==> c[0] == c[1] == c[2] == c[3] == c[4] == Holds;
  }

  /** The text is how the status is called. */
  predicate IsNameOf(name: string, status: WebhookStatus) {
    match status
    case Pending => name == "pending"
    case Processing => name == "processing"
    case Retrying => name == "retrying"
    case Delivered => name == "success"
    case Skipped => name == "skipped"
    case DeadLettered => name == "dead_lettered"
  }

  lemma StatusTextIsName(status: WebhookStatus, name: string)
    ensures IsNameOf(name, status) <==> name == StatusText(status)
  {
  }

  /** A filter never fails on its query, whatever characters that contains, and selects a webhook exactly when
      each given field agrees: the trimmed source and status are equal, the folded query occurs in a searched
      text, and the time of arrival is in the half-open range. */
  lemma SelectedIff(l: Locale, w: Webhook, f: WebhookFilter)
    requires KeepsSpecials(l.fold)
    ensures Malformed !in Conditions(l, w, f)
    ensures Selected(l, w, f) <==>
            && (f.source == "" || IsTrimOf(f.source, w.source))
            && (f.status == "" || exists name :: IsTrimOf(f.status, name) && IsNameOf(name, w.status))
            && (f.query == "" || Mentions(l, w, TrimSpace(f.query)))
            && (f.from.None? || f.from.value <= w.receivedAt)
            && (f.to.None? || w.receivedAt < f.to.value)
  {
    SelectedConditions(l, w, f);
    TrimSpaceIff(f.source, w.source);
    forall name ensures IsTrimOf(f.status, name) <==> TrimSpace(f.status) == name {
      TrimSpaceIff(f.status, name);
    }
    StatusTextIsName(w.status, TrimSpace(f.status));
  }

  // ---------- Order ----------

  datatype Order = IdAscending | IdDescending | ReceivedAscending | ReceivedDescending

  function SortOrder(sort: string): Order {
    match TrimSpace(sort)
    case "id_asc" => IdAscending
    case "received_asc" => ReceivedAscending
    case "received_desc" => ReceivedDescending
    case "id_desc" => IdDescending
    case _ => IdDescending
  }

  /** Row `a` is listed before row `b`. */
  predicate Precedes(o: Order, webhooks: map<nat, Webhook>, a: nat, b: nat)
    requires a in webhooks && b in webhooks
  {
    var x, y := webhooks[a].receivedAt, webhooks[b].receivedAt;
    match o
    case IdAscending => a < b
    case IdDescending => a > b
    case ReceivedAscending => x < y || (x == y && a < b)
    case ReceivedDescending => x > y || (x == y && a > b)
  }

  ghost predicate IsFirst(o: Order, webhooks: map<nat, Webhook>, ids: set<nat>, first: nat)
    requires ids <= webhooks.Keys
  {
    first in ids && forall id <- ids :: id == first || Precedes(o, webhooks, first, id)
  }

  lemma {:induction false} FirstExists(o: Order, webhooks: map<nat, Webhook>, ids: set<nat>)
    requires ids != {} && ids <= webhooks.Keys
    ensures exists first :: IsFirst(o, webhooks, ids, first)
    decreases |ids|
  {
    var id :| id in ids;
    if ids == {id} {
      assert IsFirst(o, webhooks, ids, id);
    } else {
      FirstExists(o, webhooks, ids - {id});
      var other :| IsFirst(o, webhooks, ids - {id}, other);
      if Precedes(o, webhooks, id, other) {
        forall x | x in ids && x != id ensures Precedes(o, webhooks, id, x) {
          assert x == other || Precedes(o, webhooks, other, x);
        }
        assert IsFirst(o, webhooks, ids, id);
      } else {
        assert IsFirst(o, webhooks, ids, other);
      }
    }
  }

  ghost function Sorted(o: Order, webhooks: map<nat, Webhook>, ids: set<nat>): seq<nat>
    requires ids <= webhooks.Keys
    decreases |ids|
  {
    if ids == {} then []
    else
      FirstExists(o, webhooks, ids);
      var first :| IsFirst(o, webhooks, ids, first);
      [first] + Sorted(o, webhooks, ids - {first})
  }

  function SelectedIds(l: Locale, webhooks: map<nat, Webhook>, f: WebhookFilter): (ids: set<nat>)
    ensures ids <= webhooks.Keys
  {
    set id | id in webhooks && Selected(l, webhooks[id], f)
  }

  /** The whole list, before any limit. */
  ghost function Listing(l: Locale, webhooks: map<nat, Webhook>, f: WebhookFilter): seq<nat> {
    Sorted(SortOrder(f.sort), webhooks, SelectedIds(l, webhooks, f))
  }

  /** What LIMIT and OFFSET leave of a list. */
  function Window(list: seq<nat>, limit: nat, offset: nat): seq<nat> {
    list[Min(offset, |list|)..Min(offset + limit, |list|)]
  }

  ghost predicate IsSorted(o: Order, webhooks: map<nat, Webhook>, list: seq<nat>) {
    && (forall i :: 0 <= i < |list| ==> list[i] in webhooks)
    && forall i, j :: 0 <= i < j < |list| ==> Precedes(o, webhooks, list[i], list[j])
  }

  ghost predicate HasIds(list: seq<nat>, ids: set<nat>) {
    forall id :: id in list <==> id in ids
  }

  lemma Prepended(o: Order, webhooks: map<nat, Webhook>, first: nat, rest: seq<nat>, ids: set<nat>)
    requires first in webhooks && IsSorted(o, webhooks, rest) && HasIds(rest, ids)
    requires forall id <- ids :: id in webhooks && Precedes(o, webhooks, first, id)
    ensures IsSorted(o, webhooks, [first] + rest) && HasIds([first] + rest, ids + {first})
  {
    forall i | 0 <= i < |rest| ensures Precedes(o, webhooks, first, rest[i]) {
      assert rest[i] in ids;
    }
  }

  lemma {:induction false} SortedIsSorted(o: Order, webhooks: map<nat, Webhook>, ids: set<nat>)
    requires ids <= webhooks.Keys
    ensures var list := Sorted(o, webhooks, ids); IsSorted(o, webhooks, list) && HasIds(list, ids) && |list| == |ids|
    decreases |ids|
  {
    if ids != {} {
      var first, rest := Sorted(o, webhooks, ids)[0], Sorted(o, webhooks, ids)[1..];
      SortedIsSorted(o, webhooks, ids - {first});
      assert IsFirst(o, webhooks, ids, first) && rest == Sorted(o, webhooks, ids - {first});
      Prepended(o, webhooks, first, rest, ids - {first});
    }
  }

  lemma EmptyIffNoIds(list: seq<nat>, ids: set<nat>)
    requires HasIds(list, ids)
    ensures list == [] <==> ids == {}
  {
    if list != [] {
      assert list[0] in ids;
    }
  }

  lemma {:induction false} SortedIsUnique(o: Order, webhooks: map<nat, Webhook>, a: seq<nat>, b: seq<nat>, ids: set<nat>)
    requires IsSorted(o, webhooks, a) && HasIds(a, ids)
    requires IsSorted(o, webhooks, b) && HasIds(b, ids)
    ensures a == b
    decreases |a|
  {
    EmptyIffNoIds(a, ids);
    EmptyIffNoIds(b, ids);
    if a != [] {
      assert a[0] in ids && b != [] && b[0] in a && a[0] in b;
      assert a[0] == b[0];
      var rest := ids - {a[0]};
      assert HasIds(a[1..], rest) && HasIds(b[1..], rest);
      SortedIsUnique(o, webhooks, a[1..], b[1..], rest);
    }
  }

  /** The order that the sort parameter asks for, trimmed; anything unknown is newest first by id. */
  predicate IsBefore(sort: string, webhooks: map<nat, Webhook>, a: nat, b: nat)
    requires a in webhooks && b in webhooks
  {
    var x, y := webhooks[a].receivedAt, webhooks[b].receivedAt;
    if TrimSpace(sort) == "id_asc" then a < b
    else if TrimSpace(sort) == "received_asc" then x < y || (x == y && a < b)
    else if TrimSpace(sort) == "received_desc" then x > y || (x == y && a > b)
    else a > b
  }

  /** The selected webhooks, each once, in that order. */
  ghost predicate IsListing(l: Locale, webhooks: map<nat, Webhook>, f: WebhookFilter, list: seq<nat>) {
    && (forall id :: id in list <==> id in webhooks && Selected(l, webhooks[id], f))
    && forall i, j :: 0 <= i < j < |list| ==> list[i] != list[j] && IsBefore(f.sort, webhooks, list[i], list[j])
  }

  lemma BeforeIffPrecedes(sort: string, webhooks: map<nat, Webhook>, a: nat, b: nat)
    requires a in webhooks && b in webhooks
    ensures IsBefore(sort, webhooks, a, b) <==> Precedes(SortOrder(sort), webhooks, a, b)
  {
  }

  lemma ListingIffSorted(l: Locale, webhooks: map<nat, Webhook>, f: WebhookFilter, list: seq<nat>)
    ensures IsListing(l, webhooks, f, list) <==>
              IsSorted(SortOrder(f.sort), webhooks, list) && HasIds(list, SelectedIds(l, webhooks, f))
  {
    forall i | 0 <= i < |list| ensures list[i] in list {
    }
    if forall id <- list :: id in webhooks {
      forall i, j | 0 <= i < j < |list|
        ensures IsBefore(f.sort, webhooks, list[i], list[j]) <==> Precedes(SortOrder(f.sort), webhooks, list[i], list[j])
      {
        BeforeIffPrecedes(f.sort, webhooks, list[i], list[j]);
      }
    }
  }

  /** Every order is total on rows, so the list is determined: it is the only one with the selected webhooks,
      each once, in the order asked for. */
  lemma ListingIsDetermined(l: Locale, webhooks: map<nat, Webhook>, f: WebhookFilter)
    ensures forall list :: IsListing(l, webhooks, f, list) <==> list == Listing(l, webhooks, f)
  {
    var o, ids := SortOrder(f.sort), SelectedIds(l, webhooks, f);
    SortedIsSorted(o, webhooks, ids);
    forall list ensures IsListing(l, webhooks, f, list) <==> list == Listing(l, webhooks, f) {
      ListingIffSorted(l, webhooks, f, list);
      if IsListing(l, webhooks, f, list) {
        SortedIsUnique(o, webhooks, list, Listing(l, webhooks, f), ids);
      }
    }
  }
}
