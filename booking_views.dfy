/** The request handlers of `restaurant/views.py` that change bookings, as
    methods of one object holding the database tables, the booking-list
    cache and the queue of outgoing mail.

    The cache is the value `get_cached_booking_list` hands out: empty, or a
    snapshot of the booking table.  Every handler that writes recomputes it
    (`get_cached_booking_list(recached=True)`) after its writes, or empties it
    (`cache_delete_booking_list()`) before them, so a snapshot never
    disagrees with the table; that is part of `Valid()`, kept by every
    method. */
module BookingViews {
  import opened Wrappers
  import opened Clock
  import opened Permissions
  import opened Tokens
  import opened Ordering
  import Bookings
  import opened BookingLists

  type BookingId = Bookings.BookingId
  type TableId = Bookings.TableId
  type Booking = Bookings.Booking
  type BookingForm = Bookings.BookingForm
  type Outcome = Bookings.Outcome

  /** A `celery_send_mail.delay(subject, message, email_list)` hand-off: the
      confirmation link the message carries and the recipients. */
  datatype Notification = Notification(url: string, recipients: seq<string>)

  /** `f"http://{host}/booking_verification/{token}/"`. */
  function ConfirmationUrl(host: string, token: Token): (url: string)
    ensures |url| == |"http://" + host + "/booking_verification/"| + |token| + 1
    ensures url[..|url| - |token| - 1] == "http://" + host + "/booking_verification/"
    ensures url[|url| - |token| - 1..] == token + "/"
  {
    "http://" + host + "/booking_verification/" + token + "/"
  }

  /** The inverse of `ConfirmationUrl` for a given host: the text between
      the link's fixed prefix and its final `/`, if the link has that shape. */
  function TokenOfUrl(host: string, url: string): (token: Option<Token>)
    ensures token.Some? ==> url == ConfirmationUrl(host, token.value)
  {
    var prefix := "http://" + host + "/booking_verification/";
    if |url| > |prefix| && url[..|prefix|] == prefix && url[|url| - 1] == '/' then
      var token := url[|prefix|..|url| - 1];
      assert url == prefix + token + "/";
      Some(token)
    else None
  }

  /** The view receives the very token that was mailed. */
  lemma ConfirmationUrlRoundTrip(host: string, token: Token)
    ensures TokenOfUrl(host, ConfirmationUrl(host, token)) == Some(token)
  {
    var prefix := "http://" + host + "/booking_verification/";
    var url := ConfirmationUrl(host, token);
    assert url[..|prefix|] == prefix;
    assert url[|prefix|..|url| - 1] == token;
  }

  class BookingService {
    /** `PARAMETERS.get("confirm_timedelta")`, read once when the module is
        loaded. */
    const confirmMinutes: nat

    var tables: map<TableId, nat>
    var bookings: map<BookingId, Booking>
    var tokens: map<Token, Bookings.BookingToken>
    var nextId: BookingId

    var cache: Option<map<BookingId, Booking>>
    var outbox: seq<Notification>

    /** The database part of the state. */
    function State(): Bookings.Store
      reads this
    {
      Bookings.Store(tables, bookings, tokens, nextId)
    }

    ghost predicate Valid()
      reads this
    {
      Bookings.Valid(State()) && (cache.Some? ==> cache.value == bookings)
    }

    constructor (confirmMinutes: nat, tables: map<TableId, nat>)
      ensures Valid()
      ensures this.confirmMinutes == confirmMinutes
      ensures State() == Bookings.Store(tables, map[], map[], 0)
      ensures cache == None && outbox == []
    {
      this.confirmMinutes := confirmMinutes;
      this.tables := tables;
      bookings, tokens, nextId := map[], map[], 0;
      cache, outbox := None, [];
    }

    // -------------------------------------------------------------------
    // The booking-list cache

    /** `get_cached_booking_list(recached=True)`. */
    method Recache()
      modifies this`cache
      ensures cache == Some(bookings)
    {
      cache := Some(bookings);
    }

    /** `cache_delete_booking_list()`. */
    method Invalidate()
      modifies this`cache
      ensures cache == None
    {
      cache := None;
    }

    /** `get_cached_booking_list()`: the snapshot, computed first if there is
        none.  Because every writer refreshes or empties the cache, what it
        returns is the booking table as it is now. */
    method CachedBookings() returns (snapshot: map<BookingId, Booking>)
      requires Valid()
      modifies this`cache
      ensures Valid()
      ensures snapshot == bookings && cache == Some(bookings)
    {
      if cache.None? {
        Recache();
      }
      snapshot := cache.value;
    }

    // -------------------------------------------------------------------
    // Writing handlers

    /** `booking.delete()`, with the tokens of the booking. */
    method DeleteRow(id: BookingId)
      modifies this`bookings, this`tokens
      ensures State() == Bookings.RemoveBooking(old(State()), id)
    {
      bookings := bookings - {id};
      tokens := map t | t in tokens && tokens[t].booking != id :: tokens[t];
    }

    /** `BookingCreateUpdateMixin.form_valid` for the row `id`: the form is
        saved with the requester as owner and inactive, a new token is
        stored for it, the confirmation link is mailed to the requester, and
        the cache is recomputed. */
    method FormValid(id: BookingId, form: BookingForm, actor: User, entropy: seq<Byte>, now: Instant, host: string)
      requires Valid() && id < nextId && form.table in tables
      requires |entropy| == TokenBytes && TokenHex(entropy) !in tokens
      modifies this`bookings, this`tokens, this`outbox, this`cache
      ensures Valid()
      ensures State() == Bookings.SaveForm(old(State()), id, form, actor, TokenHex(entropy), now)
      ensures outbox == old(outbox) + [Notification(ConfirmationUrl(host, TokenHex(entropy)), [actor.email])]
      ensures cache == Some(bookings)
    {
      bookings := bookings[id := Bookings.Booking(actor.id, form.table, form.date, form.timeStart, false)];
      var token := TokenHex(entropy);
      tokens := tokens[token := Bookings.BookingToken(id, now)];
      // the recipients are the users whose key is the requester's: the requester
      var emailList := [actor.email];
      outbox := outbox + [Notification(ConfirmationUrl(host, token), emailList)];
      Recache();
    }

    /** `BookingCreateView` on a valid form: returns the new booking's key. */
    method CreateBooking(actor: User, form: BookingForm, entropy: seq<Byte>, now: Instant, host: string)
      returns (id: BookingId)
      requires Valid() && form.table in tables
      requires |entropy| == TokenBytes && TokenHex(entropy) !in tokens
      modifies this
      ensures Valid()
      ensures (State(), id) == Bookings.CreateStep(old(State()), actor, form, entropy, now)
      ensures outbox == old(outbox) + [Notification(ConfirmationUrl(host, TokenHex(entropy)), [actor.email])]
      ensures cache == Some(bookings)
    {
      id := nextId;
      nextId := nextId + 1;
      FormValid(id, form, actor, entropy, now, host);
    }

    /** `BookingUpdateView`: 404 for a missing booking, 403 for anybody but
        its owner (before anything is written), otherwise the owner's
        `form_valid`. */
    method UpdateBooking(actor: User, pk: BookingId, form: BookingForm, entropy: seq<Byte>, now: Instant, host: string)
      returns (outcome: Outcome)
      requires Valid() && |entropy| == TokenBytes
      requires pk in bookings && IsOwner(actor, bookings[pk].owner) ==>
        form.table in tables && TokenHex(entropy) !in tokens
      modifies this
      ensures Valid()
      ensures (State(), outcome) == Bookings.UpdateStep(old(State()), actor, pk, form, entropy, now)
      ensures outcome != Bookings.Ok ==> cache == old(cache) && outbox == old(outbox)
      ensures outcome == Bookings.Ok ==>
        && cache == Some(bookings)
        && outbox == old(outbox) + [Notification(ConfirmationUrl(host, TokenHex(entropy)), [actor.email])]
    {
      if pk !in bookings {
        return Bookings.NotFound;
      }
      if !IsOwner(actor, bookings[pk].owner) {
        return Bookings.PermissionDenied;
      }
      FormValid(pk, form, actor, entropy, now, host);
      outcome := Bookings.Ok;
    }

    /** `booking_verification(token)`. */
    method VerifyBooking(token: Token, now: Instant) returns (outcome: Outcome)
      requires Valid()
      modifies this`bookings, this`tokens, this`cache
      ensures Valid()
      ensures (State(), outcome) == Bookings.VerifyStep(old(State()), token, now, confirmMinutes)
      ensures outcome == Bookings.NotFound ==> cache == old(cache)
      ensures outcome != Bookings.NotFound ==> cache == Some(bookings)
    {
      if token !in tokens {
        return Bookings.NotFound;
      }
      var bookingToken := tokens[token];
      if bookingToken.createdAt < SubMinutes(now, confirmMinutes) {
        DeleteRow(bookingToken.booking);
        tokens := tokens - {token};
        Recache();
        outcome := Bookings.Expired;
      } else {
        tokens := tokens - {token};
        var booking := bookings[bookingToken.booking];
        bookings := bookings[bookingToken.booking := booking.(active := true)];
        Recache();
        outcome := Bookings.Confirmed;
      }
      Bookings.VerifyEffect(old(State()), token, now, confirmMinutes);
    }

    /** `toggle_activity_booking(pk)`: no login or ownership test. */
    method ToggleActivity(pk: BookingId) returns (outcome: Outcome)
      requires Valid()
      modifies this`bookings, this`cache
      ensures Valid()
      ensures (State(), outcome) == Bookings.ToggleStep(old(State()), pk)
      ensures outcome == Bookings.NotFound ==> cache == old(cache)
      ensures outcome == Bookings.Ok ==> cache == Some(bookings)
    {
      if pk !in bookings {
        return Bookings.NotFound;
      }
      var item := bookings[pk];
      if item.active {
        item := item.(active := false);
      }
      bookings := bookings[pk := item];
      Recache();
      outcome := Bookings.Ok;
    }

    /** `BookingDeleteView`: 404 for a missing booking, 403 for anybody but
        its owner; the owner's request empties the cache, then deletes. */
    method DeleteBooking(actor: User, pk: BookingId) returns (outcome: Outcome)
      requires Valid()
      modifies this`bookings, this`tokens, this`cache
      ensures Valid()
      ensures (State(), outcome) == Bookings.DeleteStep(old(State()), actor, pk)
      ensures outcome != Bookings.Ok ==> cache == old(cache)
      ensures outcome == Bookings.Ok ==> cache == None
    {
      if pk !in bookings {
        return Bookings.NotFound;
      }
      if !IsOwner(actor, bookings[pk].owner) {
        return Bookings.PermissionDenied;
      }
      Invalidate();
      DeleteRow(pk);
      outcome := Bookings.Ok;
      Bookings.DeleteEffect(old(State()), actor, pk);
    }

    // -------------------------------------------------------------------
    // Reading handlers

    /** `BookingListView.get_context_data`: the requester's own bookings,
        read through the cache, by date and start time. */
    method ListBookings(actor: User) returns (ids: seq<BookingId>)
      requires Valid()
      modifies this`cache
      ensures Valid() && cache == Some(bookings)
      ensures forall id :: id in ids <==> id in bookings && bookings[id].owner == actor.id
      ensures Distinct(ids) && InDateTimeOrder(bookings, ids)
    {
      var snapshot := CachedBookings();
      ids := OwnBookings(snapshot, nextId, actor.id);
    }

    /** `BookingDetailView`: 404 for a missing key, otherwise the booking as
        the cache holds it, which is the booking as stored. */
    method BookingDetail(pk: BookingId) returns (booking: Option<Booking>)
      requires Valid()
      modifies this`cache
      ensures Valid()
      ensures booking == if pk in bookings then Some(bookings[pk]) else None
    {
      if pk !in bookings {
        return None;
      }
      var snapshot := CachedBookings();
      booking := Some(snapshot[pk]);
    }
  }
}
