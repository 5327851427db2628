/** The booking lists of `restaurant/views.py`: the "actual" bookings and the
    tables they occupy, shown beside the create and update forms, and a
    user's own bookings on the list page.  Each is a query over the booking
    store, ordered by `(date_field, time_start)` ascending. */
module BookingLists {
  import opened Clock
  import opened Permissions
  import opened Tokens
  import opened Ordering
  import opened Bookings

  /** The sort key of `order_by("date_field", "time_start")`. */
  function SlotOf(m: map<BookingId, Booking>): BookingId -> int
  {
    id => if id in m then SlotKey(m[id].date, m[id].timeStart) else 0
  }

  /** Booking keys listed earlier never have a later (date, start time). */
  ghost predicate InDateTimeOrder(m: map<BookingId, Booking>, ids: seq<BookingId>)
    requires forall id :: id in ids ==> id in m
  {
    forall i, j :: 0 <= i < j < |ids| ==>
      || m[ids[i]].date < m[ids[j]].date
      || (m[ids[i]].date == m[ids[j]].date && m[ids[i]].timeStart <= m[ids[j]].timeStart)
  }

  lemma {:induction false} SlotOrderIsDateTimeOrder(m: map<BookingId, Booking>, ids: seq<BookingId>)
    requires forall id :: id in ids ==> id in m
    requires SortedBy(ids, SlotOf(m))
    ensures InDateTimeOrder(m, ids)
  {
    forall i, j | 0 <= i < j < |ids|
      ensures || m[ids[i]].date < m[ids[j]].date
              || (m[ids[i]].date == m[ids[j]].date && m[ids[i]].timeStart <= m[ids[j]].timeStart)
    {
      var a, b := m[ids[i]], m[ids[j]];
      assert SlotOf(m)(ids[i]) <= SlotOf(m)(ids[j]);
      SlotKeyIsLexicographic(a.date, a.timeStart, b.date, b.timeStart);
    }
  }

  /** The keys below `n` of the rows of `m` selected by `keep`, ascending. */
  function IdsBelow(m: map<BookingId, Booking>, keep: set<BookingId>, n: nat): (ids: seq<BookingId>)
    ensures Distinct(ids)
    ensures forall id :: id in ids <==> id < n && id in m && id in keep
    decreases n
  {
    if n == 0 then []
    else
      var rest := IdsBelow(m, keep, n - 1);
      if n - 1 in m && n - 1 in keep then
        assert forall x :: multiset(rest + [n - 1])[x] == multiset(rest)[x] + (if x == n - 1 then 1 else 0);
        rest + [n - 1]
      else rest
  }

  /** The rows of `m` selected by `keep`, each once, ordered by
      `(date_field, time_start)`. */
  function InSlotOrder(m: map<BookingId, Booking>, keep: set<BookingId>, n: nat): (ids: seq<BookingId>)
    ensures Distinct(ids)
    ensures forall id :: id in ids <==> id < n && id in m && id in keep
    ensures InDateTimeOrder(m, ids)
  {
    var ids := IdsBelow(m, keep, n);
    SortByKeepsElements(ids, SlotOf(m));
    SlotOrderIsDateTimeOrder(m, SortBy(ids, SlotOf(m)));
    SortBy(ids, SlotOf(m))
  }

  // ---------------------------------------------------------------------
  // BookingCreateUpdateMixin.get_context_data

  /** `[token.booking.pk for token in
      BookingToken.objects.filter(created_at__gt=time_border)]` with
      `time_border = now - confirm_timedelta`. */
  function PendingIds(tokens: map<Token, BookingToken>, now: Instant, confirmMinutes: nat): set<BookingId>
  {
    set t | t in tokens && tokens[t].createdAt > SubMinutes(now, confirmMinutes) :: tokens[t].booking
  }

  /** `present_time_booking.filter(Q(active=True) | Q(pk__in=booking_tokens))`,
      where `candidates` stands for the result of
      `get_actual_bookings(active=False, time_start=False)`. */
  function ActualIds(s: Store, candidates: set<BookingId>, now: Instant, confirmMinutes: nat): set<BookingId>
  {
    set id | id in candidates && id in s.bookings
                && (s.bookings[id].active || id in PendingIds(s.tokens, now, confirmMinutes))
  }

  /** The "actual" bookings: exactly the candidates that are active or have a
      token created after `now - confirm_timedelta`, each once, ordered by
      `(date_field, time_start)`. */
  function ActualBookings(s: Store, candidates: set<BookingId>, now: Instant, confirmMinutes: nat): (ids: seq<BookingId>)
    requires Valid(s)
    ensures forall id :: id in ids <==>
      && id in candidates && id in s.bookings
      && (|| s.bookings[id].active
          || exists t :: t in s.tokens && s.tokens[t].booking == id
                           && s.tokens[t].createdAt > now - confirmMinutes * MicrosPerMinute)
    ensures Distinct(ids) && InDateTimeOrder(s.bookings, ids)
  {
    InSlotOrder(s.bookings, ActualIds(s, candidates, now, confirmMinutes), s.nextId)
  }

  /** The table number `order_by("number")` sorts on. */
  function NumberOf(tables: map<TableId, nat>): TableId -> int
  {
    t => if t in tables then tables[t] else 0
  }

  /** `Table.objects.filter(pk__in=[b.table.pk for b in bookings])
      .order_by("number")`: the tables of the listed bookings, each once, by
      number. */
  function TablesOf(s: Store, ids: seq<BookingId>): (tables: seq<TableId>)
    requires forall id :: id in ids ==> id in s.bookings
    ensures Distinct(tables)
    ensures forall t :: t in tables <==> t in s.tables && exists id :: id in ids && s.bookings[id].table == t
    ensures SortedBy(tables, NumberOf(s.tables))
  {
    var pks := seq(|ids|, i requires 0 <= i < |ids| => s.bookings[ids[i]].table);
    assert forall t :: t in pks <==> exists id :: id in ids && s.bookings[id].table == t by {
      forall t ensures t in pks <==> exists id :: id in ids && s.bookings[id].table == t {
        if exists id :: id in ids && s.bookings[id].table == t {
          var id :| id in ids && s.bookings[id].table == t;
          var i :| 0 <= i < |ids| && ids[i] == id;
          assert pks[i] == t;
        }
      }
    }
    var distinct := DistinctIn(pks, s.tables.Keys);
    SortByKeepsElements(distinct, NumberOf(s.tables));
    SortBy(distinct, NumberOf(s.tables))
  }

  /** The context of the booking form: the actual bookings and their
      tables. */
  function BookingFormContext(s: Store, candidates: set<BookingId>, now: Instant, confirmMinutes: nat): (seq<BookingId>, seq<TableId>)
    requires Valid(s)
  {
    var ids := ActualBookings(s, candidates, now, confirmMinutes);
    (ids, TablesOf(s, ids))
  }

  // ---------------------------------------------------------------------
  // BookingListView.get_context_data

  /** `cashed_booking.filter(user=user).order_by("date_field", "time_start")`
      over a snapshot whose keys lie below `n`. */
  function OwnBookings(snapshot: map<BookingId, Booking>, n: nat, user: UserId): (ids: seq<BookingId>)
    requires forall id :: id in snapshot ==> id < n
    ensures forall id :: id in ids <==> id in snapshot && snapshot[id].owner == user
    ensures Distinct(ids) && InDateTimeOrder(snapshot, ids)
  {
    var mine := set id | id in snapshot && snapshot[id].owner == user;
    InSlotOrder(snapshot, mine, n)
  }

  // ---------------------------------------------------------------------
  // The lists across the lifecycle

  /** A confirmed booking is actual from then on, whatever the time, as long
      as the time pre-filter keeps it. */
  lemma {:induction false} ConfirmedIsActual(s: Store, token: Token, now: Instant, later: Instant,
                                            confirmMinutes: nat, candidates: set<BookingId>)
    requires Valid(s) && token in s.tokens && s.tokens[token].booking in candidates
    requires VerifyStep(s, token, now, confirmMinutes).1 == Confirmed
    ensures var s' := VerifyStep(s, token, now, confirmMinutes).0;
      Valid(s') && s.tokens[token].booking in ActualBookings(s', candidates, later, confirmMinutes)
  {
    VerifyEffect(s, token, now, confirmMinutes);
  }

  /** An expired booking is gone: no list shows it any more. */
  lemma {:induction false} ExpiredIsNotActual(s: Store, token: Token, now: Instant, later: Instant,
                                             confirmMinutes: nat, candidates: set<BookingId>)
    requires Valid(s) && token in s.tokens
    requires VerifyStep(s, token, now, confirmMinutes).1 == Expired
    ensures var s' := VerifyStep(s, token, now, confirmMinutes).0;
      && Valid(s')
      && s.tokens[token].booking !in ActualBookings(s', candidates, later, confirmMinutes)
      && s.tokens[token].booking !in OwnBookings(s'.bookings, s'.nextId, s.bookings[s.tokens[token].booking].owner)
  {
    VerifyEffect(s, token, now, confirmMinutes);
  }

  /** A booking just created is pending: it is actual exactly until
      `confirm_timedelta` minutes after its creation, and not from that
      instant on. */
  lemma {:induction false} CreatedIsActualUntilDeadline(s: Store, actor: User, form: BookingForm, entropy: seq<Byte>,
                                                        now: Instant, later: Instant, confirmMinutes: nat,
                                                        candidates: set<BookingId>)
    requires Valid(s) && |entropy| == TokenBytes && form.table in s.tables
    requires TokenHex(entropy) !in s.tokens
    requires s.nextId in candidates
    ensures var (s', id) := CreateStep(s, actor, form, entropy, now);
      && Valid(s')
      && (id in ActualBookings(s', candidates, later, confirmMinutes) <==> later < now + confirmMinutes * MicrosPerMinute)
  {
    CreateEffect(s, actor, form, entropy, now);
    var (s', id) := CreateStep(s, actor, form, entropy, now);
    var token := TokenHex(entropy);
    assert s'.tokens[token].booking == id;
    if later < now + confirmMinutes * MicrosPerMinute {
      assert s'.tokens[token].createdAt > later - confirmMinutes * MicrosPerMinute;
    }
  }

  /** At the deadline itself the two views disagree: a pending booking whose
      only token was created exactly `confirm_timedelta` minutes ago is no
      longer listed as actual (`created_at > border` fails), yet visiting the
      token still confirms it (`created_at < border` fails too). */
  lemma {:induction false} DeadlineBoundary(s: Store, token: Token, confirmMinutes: nat, candidates: set<BookingId>)
    requires Valid(s) && token in s.tokens
    requires !s.bookings[s.tokens[token].booking].active
    requires forall t :: t in s.tokens && s.tokens[t].booking == s.tokens[token].booking ==> t == token
    ensures var now := s.tokens[token].createdAt + confirmMinutes * MicrosPerMinute;
      && s.tokens[token].booking !in ActualBookings(s, candidates, now, confirmMinutes)
      && VerifyStep(s, token, now, confirmMinutes).1 == Confirmed
  {
  }

  /** A booking made for table 4 at 14:00 with `confirm_timedelta` of 45
      minutes and visited 10 minutes later is confirmed and stays listed. */
  lemma {:induction false} ScenarioVisitInTime(s: Store, actor: User, day: Day, entropy: seq<Byte>, now: Instant,
                                              later: Instant, candidates: set<BookingId>)
    requires Valid(s) && |entropy| == TokenBytes && 4 in s.tables
    requires TokenHex(entropy) !in s.tokens
    requires s.nextId in candidates
    ensures var (s1, id) := CreateStep(s, actor, BookingForm(4, day, 14 * MicrosPerHour), entropy, now);
      var (s2, outcome) := VerifyStep(s1, TokenHex(entropy), now + 10 * MicrosPerMinute, 45);
      && outcome == Confirmed
      && s2.bookings[id].active
      && id in ActualBookings(s2, candidates, later, 45)
  {
    var form := BookingForm(4, day, 14 * MicrosPerHour);
    CreateEffect(s, actor, form, entropy, now);
    var (s1, id) := CreateStep(s, actor, form, entropy, now);
    var token := TokenHex(entropy);
    VerifyEffect(s1, token, now + 10 * MicrosPerMinute, 45);
    ConfirmedIsActual(s1, token, now + 10 * MicrosPerMinute, later, 45, candidates);
  }

  /** The same booking visited 50 minutes later is deleted with its token,
      and visiting again finds nothing. */
  lemma {:induction false} ScenarioVisitTooLate(s: Store, actor: User, day: Day, entropy: seq<Byte>, now: Instant,
                                               later: Instant, candidates: set<BookingId>)
    requires Valid(s) && |entropy| == TokenBytes && 4 in s.tables
    requires TokenHex(entropy) !in s.tokens
    ensures var (s1, id) := CreateStep(s, actor, BookingForm(4, day, 14 * MicrosPerHour), entropy, now);
      var (s2, outcome) := VerifyStep(s1, TokenHex(entropy), now + 50 * MicrosPerMinute, 45);
      && outcome == Expired
      && id !in s2.bookings
      && id !in ActualBookings(s2, candidates, later, 45)
      && VerifyStep(s2, TokenHex(entropy), later, 45) == (s2, NotFound)
  {
    var form := BookingForm(4, day, 14 * MicrosPerHour);
    CreateEffect(s, actor, form, entropy, now);
    var (s1, id) := CreateStep(s, actor, form, entropy, now);
    var token := TokenHex(entropy);
    VerifyEffect(s1, token, now + 50 * MicrosPerMinute, 45);
    VerifyTwiceIsNotFound(s1, token, now + 50 * MicrosPerMinute, later, 45);
  }
}
