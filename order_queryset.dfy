/** The order filters of gardenhub/managers.py (OrderQuerySet). A query set
    is a map from order id to order; each filter keeps the entries whose
    order passes its test against the local day `today`. None of the
    filters looks at `canceled`. */
module OrderQuerySet {
  import opened Records

  type QuerySet = map<OrderId, Order>

  predicate EndedBefore(o: Order, today: int) { o.endDate < today }
  predicate EndsAfter(o: Order, today: int) { o.endDate > today }
  predicate StartsAfter(o: Order, today: int) { o.startDate > today }
  predicate Covers(o: Order, today: int) { o.endDate >= today && o.startDate <= today }
  predicate OutsideOf(o: Order, today: int) { o.endDate < today || o.startDate > today }

  /** Orders that have finished. */
  function Completed(qs: QuerySet, today: int): QuerySet {
    map id | id in qs && EndedBefore(qs[id], today) :: qs[id]
  }

  /** Orders whose end date lies strictly after today. */
  function Open(qs: QuerySet, today: int): QuerySet {
    map id | id in qs && EndsAfter(qs[id], today) :: qs[id]
  }

  /** Orders that have not yet begun. */
  function Upcoming(qs: QuerySet, today: int): QuerySet {
    map id | id in qs && StartsAfter(qs[id], today) :: qs[id]
  }

  /** Orders whose date range contains today. */
  function Active(qs: QuerySet, today: int): QuerySet {
    map id | id in qs && Covers(qs[id], today) :: qs[id]
  }

  /** Orders whose date range does not contain today. */
  function Inactive(qs: QuerySet, today: int): QuerySet {
    map id | id in qs && OutsideOf(qs[id], today) :: qs[id]
  }

  /** Closed orders: finished or canceled. managers.py defines no closed()
      filter although Order.is_closed calls one; this is the set the tests
      of Order.objects.closed() and Order.is_closed expect. */
  function Closed(qs: QuerySet, today: int): QuerySet {
    map id | id in qs && (EndedBefore(qs[id], today) || qs[id].canceled) :: qs[id]
  }

  /** Some pick on the order's plot carries a timestamp at or after the
      start of today. */
  predicate HasPickSince(picks: map<PickId, Pick>, o: Order, today: int) {
    exists k :: k in picks && picks[k].plot == o.plot && picks[k].timestamp >= StartOfDay(today)
  }

  /** Orders that have at least one pick from today. */
  function PickedToday(qs: QuerySet, picks: map<PickId, Pick>, today: int): QuerySet {
    map id | id in qs && HasPickSince(picks, qs[id], today) :: qs[id]
  }

  /** Orders that have no pick from today. */
  function UnpickedToday(qs: QuerySet, picks: map<PickId, Pick>, today: int): QuerySet {
    map id | id in qs && !HasPickSince(picks, qs[id], today) :: qs[id]
  }

  /** For a fixed day, active() and inactive() split every query set in two. */
  lemma ActiveInactivePartition(qs: QuerySet, today: int)
    ensures Active(qs, today).Keys + Inactive(qs, today).Keys == qs.Keys
    ensures Active(qs, today).Keys !! Inactive(qs, today).Keys
  {
  }

  /** completed() and upcoming() never share an order with active(). */
  lemma CompletedAndUpcomingAreNotActive(qs: QuerySet, today: int)
    ensures Completed(qs, today).Keys !! Active(qs, today).Keys
    ensures Upcoming(qs, today).Keys !! Active(qs, today).Keys
    ensures Inactive(qs, today).Keys == Completed(qs, today).Keys + Upcoming(qs, today).Keys
  {
  }

  /** open() is strict: an order that ends today is active but not open,
      and (not being canceled) not closed either. */
  lemma EndingTodayIsActiveNotOpen(qs: QuerySet, id: OrderId, today: int)
    requires id in qs && qs[id].endDate == today && qs[id].startDate <= today
    ensures id in Active(qs, today) && id !in Open(qs, today)
    ensures !qs[id].canceled ==> id !in Closed(qs, today)
  {
  }

  /** The order `id` of `qs`, canceled at `when`. */
  function CancelIn(qs: QuerySet, id: OrderId, when: int): (r: QuerySet)
    requires id in qs
    ensures r.Keys == qs.Keys && r[id].canceled && r[id].canceledTimestamp == Some(when)
    ensures r[id].plot == qs[id].plot && r[id].requester == qs[id].requester
    ensures r[id].startDate == qs[id].startDate && r[id].endDate == qs[id].endDate
    ensures forall x :: x in qs && x != id ==> r[x] == qs[x]
  {
    qs[id := qs[id].(canceled := true, canceledTimestamp := Some(when))]
  }

  /** Canceling an order changes its membership in none of the date
      filters. */
  lemma CancelingKeepsDateFilters(qs: QuerySet, id: OrderId, today: int, when: int)
    requires id in qs
    ensures var qs' := CancelIn(qs, id, when);
      && Completed(qs', today).Keys == Completed(qs, today).Keys
      && Open(qs', today).Keys == Open(qs, today).Keys
      && Upcoming(qs', today).Keys == Upcoming(qs, today).Keys
      && Active(qs', today).Keys == Active(qs, today).Keys
      && Inactive(qs', today).Keys == Inactive(qs, today).Keys
  {
    var qs' := CancelIn(qs, id, when);
    forall x | x in qs ensures qs'[x].startDate == qs[x].startDate && qs'[x].endDate == qs[x].endDate {
    }
  }

  /** Canceling an order changes its membership in neither pick filter. */
  lemma CancelingKeepsPickFilters(qs: QuerySet, picks: map<PickId, Pick>, id: OrderId, today: int, when: int)
    requires id in qs
    ensures var qs' := CancelIn(qs, id, when);
      && PickedToday(qs', picks, today).Keys == PickedToday(qs, picks, today).Keys
      && UnpickedToday(qs', picks, today).Keys == UnpickedToday(qs, picks, today).Keys
  {
  }

  /** Canceling an order adds it to the closed orders and nothing else. */
  lemma CancelingCloses(qs: QuerySet, id: OrderId, today: int, when: int)
    requires id in qs
    ensures Closed(CancelIn(qs, id, when), today).Keys == Closed(qs, today).Keys + {id}
  {
  }

  /** picked_today() and unpicked_today() are complements, and an order is
      picked today exactly when a pick on its plot is stamped today or
      later. */
  lemma PickedTodayComplement(qs: QuerySet, picks: map<PickId, Pick>, today: int)
    ensures PickedToday(qs, picks, today).Keys + UnpickedToday(qs, picks, today).Keys == qs.Keys
    ensures PickedToday(qs, picks, today).Keys !! UnpickedToday(qs, picks, today).Keys
    ensures forall id :: id in PickedToday(qs, picks, today) <==>
      id in qs && exists k :: k in picks && picks[k].plot == qs[id].plot && picks[k].timestamp >= StartOfDay(today)
  {
  }

  /** An order with no pick on its plot stays unpicked; one pick stamped
      during today on its plot makes it picked. */
  lemma OnePickMakesPicked(qs: QuerySet, picks: map<PickId, Pick>, id: OrderId, k: PickId, today: int, second: int)
    requires id in qs && k !in picks
    requires forall j :: j in picks ==> picks[j].plot != qs[id].plot
    requires 0 <= second < SecondsPerDay
    ensures id in UnpickedToday(qs, picks, today)
    ensures id in PickedToday(qs, picks[k := Pick(qs[id].plot, 0, StartOfDay(today) + second)], today)
  {
    var picks' := picks[k := Pick(qs[id].plot, 0, StartOfDay(today) + second)];
    assert k in picks' && picks'[k].plot == qs[id].plot;
  }
}
