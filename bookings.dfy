/** The booking lifecycle of `restaurant/views.py` as transitions of the
    database state: bookings keyed by primary key, confirmation tokens keyed
    by their value, and the tables bookings refer to.

    A booking is created or edited inactive with a fresh token, confirmed by
    visiting its token within `confirm_timedelta` minutes (the token is
    deleted and the booking activated), or expired by a late visit (the
    booking and its token are deleted).  Each transition here is what one
    request handler does to the database; the handlers themselves, with the
    booking cache and the outgoing mail, are the methods of
    `BookingViews.BookingService`. */
module Bookings {
  import opened Clock
  import opened Permissions
  import opened Tokens

  type BookingId = nat

  type TableId = nat

  datatype Booking = Booking(owner: UserId, table: TableId, date: Day, timeStart: TimeOfDay, active: bool)

  datatype BookingToken = BookingToken(booking: BookingId, createdAt: Instant)

  /** The fields `BookingForm` saves. */
  datatype BookingForm = BookingForm(table: TableId, date: Day, timeStart: TimeOfDay)

  /** `tables` maps a table's primary key to its number; `nextId` is the next
      primary key the database hands out. */
  datatype Store = Store(
    tables: map<TableId, nat>,
    bookings: map<BookingId, Booking>,
    tokens: map<Token, BookingToken>,
    nextId: BookingId)

  /** How a request ended: `NotFound` and `PermissionDenied` for the 404 and
      403 responses, `Expired` and `Confirmed` for the two pages of the
      verification view, `Ok` for every other success. */
  datatype Outcome = Ok | NotFound | PermissionDenied | Expired | Confirmed

  /** What the database guarantees: keys already handed out lie below
      `nextId`, bookings point at existing tables, and tokens are well formed
      and point at existing bookings. */
  ghost predicate Valid(s: Store)
  {
    && (forall id :: id in s.bookings ==> id < s.nextId && s.bookings[id].table in s.tables)
    && (forall t :: t in s.tokens ==> IsToken(t) && s.tokens[t].booking in s.bookings)
  }

  /** The confirmation window: `created_at < now - confirm_timedelta` makes a
      token too old to confirm its booking. */
  predicate IsExpired(createdAt: Instant, now: Instant, confirmMinutes: nat)
  {
    createdAt < SubMinutes(now, confirmMinutes)
  }

  /** `booking.delete()`: the booking row goes, and with it every token that
      refers to it (the token's foreign key cannot dangle). */
  function RemoveBooking(s: Store, id: BookingId): Store
  {
    s.(bookings := s.bookings - {id},
       tokens := map t | t in s.tokens && s.tokens[t].booking != id :: s.tokens[t])
  }

  /** `BookingCreateUpdateMixin.form_valid` on booking `id`: the form's fields
      are saved with the requesting user as owner and `active = False`, and a
      token created `now` is linked to the booking. */
  function SaveForm(s: Store, id: BookingId, form: BookingForm, actor: User, token: Token, now: Instant): Store
  {
    s.(bookings := s.bookings[id := Booking(actor.id, form.table, form.date, form.timeStart, false)],
       tokens := s.tokens[token := BookingToken(id, now)])
  }

  /** `BookingCreateView`: the form is saved as a new row, under the next
      primary key. */
  function CreateStep(s: Store, actor: User, form: BookingForm, entropy: seq<Byte>, now: Instant): (Store, BookingId)
    requires |entropy| == TokenBytes
  {
    (SaveForm(s.(nextId := s.nextId + 1), s.nextId, form, actor, TokenHex(entropy), now), s.nextId)
  }

  /** `BookingUpdateView`: a missing booking is a 404; only its owner gets a
      form, anybody else is refused before anything is saved; the owner's
      edit goes through the same `form_valid` as creation. */
  function UpdateStep(s: Store, actor: User, pk: BookingId, form: BookingForm, entropy: seq<Byte>, now: Instant): (Store, Outcome)
    requires |entropy| == TokenBytes
  {
    if pk !in s.bookings then (s, NotFound)
    else if !IsOwner(actor, s.bookings[pk].owner) then (s, PermissionDenied)
    else (SaveForm(s, pk, form, actor, TokenHex(entropy), now), Ok)
  }

  /** `booking_verification(token)`. */
  function VerifyStep(s: Store, token: Token, now: Instant, confirmMinutes: nat): (Store, Outcome)
    requires Valid(s)
  {
    if token !in s.tokens then (s, NotFound)
    else
      var t := s.tokens[token];
      if IsExpired(t.createdAt, now, confirmMinutes) then
        var s' := RemoveBooking(s, t.booking);
        (s'.(tokens := s'.tokens - {token}), Expired)
      else
        var b := s.bookings[t.booking];
        (s.(tokens := s.tokens - {token}, bookings := s.bookings[t.booking := b.(active := true)]), Confirmed)
  }

  /** `toggle_activity_booking(pk)`: no ownership test; an active booking is
      made inactive and an inactive one is saved unchanged. */
  function ToggleStep(s: Store, pk: BookingId): (Store, Outcome)
  {
    if pk !in s.bookings then (s, NotFound)
    else
      var b := s.bookings[pk];
      (s.(bookings := s.bookings[pk := if b.active then b.(active := false) else b]), Ok)
  }

  /** `BookingDeleteView`: a missing booking is a 404; only the owner may
      delete, a moderator included is refused. */
  function DeleteStep(s: Store, actor: User, pk: BookingId): (Store, Outcome)
  {
    if pk !in s.bookings then (s, NotFound)
    else if !IsOwner(actor, s.bookings[pk].owner) then (s, PermissionDenied)
    else (RemoveBooking(s, pk), Ok)
  }

  // ---------------------------------------------------------------------
  // Properties of single transitions

  /** Creating saves a new booking under a key never used before, owned by
      the requester and inactive, and links to it a single new well-formed
      token created now; no other booking or token changes. */
  lemma CreateEffect(s: Store, actor: User, form: BookingForm, entropy: seq<Byte>, now: Instant)
    requires Valid(s) && |entropy| == TokenBytes && form.table in s.tables
    requires TokenHex(entropy) !in s.tokens
    ensures var (s', id) := CreateStep(s, actor, form, entropy, now);
      && Valid(s')
      && id !in s.bookings && s'.bookings.Keys == s.bookings.Keys + {id}
      && s'.bookings[id] == Booking(actor.id, form.table, form.date, form.timeStart, false)
      && (forall other :: other in s.bookings ==> s'.bookings[other] == s.bookings[other])
      && IsToken(TokenHex(entropy))
      && s'.tokens == s.tokens[TokenHex(entropy) := BookingToken(id, now)]
      && (forall t :: t in s'.tokens && s'.tokens[t].booking == id <==> t == TokenHex(entropy))
      && s'.tables == s.tables && s'.nextId == s.nextId + 1
  {
  }

  /** An update refused for ownership or a missing booking changes nothing;
      an accepted one leaves the booking inactive again under a fresh token. */
  lemma UpdateEffect(s: Store, actor: User, pk: BookingId, form: BookingForm, entropy: seq<Byte>, now: Instant)
    requires Valid(s) && |entropy| == TokenBytes
    requires pk in s.bookings && IsOwner(actor, s.bookings[pk].owner) ==>
      form.table in s.tables && TokenHex(entropy) !in s.tokens
    ensures var (s', outcome) := UpdateStep(s, actor, pk, form, entropy, now);
      && Valid(s')
      && (outcome == NotFound <==> pk !in s.bookings)
      && (outcome == PermissionDenied <==> pk in s.bookings && s.bookings[pk].owner != actor.id)
      && (outcome != Ok ==> s' == s)
      && (outcome == Ok ==>
            && s'.bookings == s.bookings[pk := Booking(actor.id, form.table, form.date, form.timeStart, false)]
            && s'.tokens == s.tokens[TokenHex(entropy) := BookingToken(pk, now)]
            && s'.tables == s.tables && s'.nextId == s.nextId)
  {
  }

  /** Verification: an unknown token is NotFound and changes nothing; a late
      one removes its booking with the booking's tokens and nothing else; any
      other (the deadline itself included) removes just that token and
      activates the booking.  Either way the store stays well formed. */
  lemma {:induction false} VerifyEffect(s: Store, token: Token, now: Instant, confirmMinutes: nat)
    requires Valid(s)
    ensures var (s', outcome) := VerifyStep(s, token, now, confirmMinutes);
      && Valid(s')
      && (outcome == NotFound <==> token !in s.tokens)
      && (outcome == NotFound ==> s' == s)
      && (outcome == Expired <==> token in s.tokens && s.tokens[token].createdAt < now - confirmMinutes * MicrosPerMinute)
      && (outcome == Confirmed <==> token in s.tokens && s.tokens[token].createdAt >= now - confirmMinutes * MicrosPerMinute)
      && (outcome != NotFound ==> token !in s'.tokens && s'.tables == s.tables && s'.nextId == s.nextId)
      && (outcome == Expired ==>
            var b := s.tokens[token].booking;
            && s'.bookings == s.bookings - {b}
            && (forall t :: t in s'.tokens <==> t in s.tokens && s.tokens[t].booking != b)
            && (forall t :: t in s'.tokens ==> s'.tokens[t] == s.tokens[t]))
      && (outcome == Confirmed ==>
            var b := s.tokens[token].booking;
            && s'.bookings.Keys == s.bookings.Keys
            && s'.bookings[b] == s.bookings[b].(active := true)
            && (forall other :: other in s.bookings && other != b ==> s'.bookings[other] == s.bookings[other])
            && s'.tokens == s.tokens - {token})
  {
    var (s', outcome) := VerifyStep(s, token, now, confirmMinutes);
    if token in s.tokens {
      var b := s.tokens[token].booking;
      if outcome == Expired {
        forall t | t in s'.tokens ensures s'.tokens[t].booking in s'.bookings {
          assert s'.tokens[t] == s.tokens[t];
        }
      }
    }
  }

  /** A token is used at most once: whatever the first visit did, a second
      visit with the same value finds nothing and changes nothing, so an
      expired booking is cleaned up exactly once. */
  lemma {:induction false} VerifyTwiceIsNotFound(s: Store, token: Token, now: Instant, later: Instant, confirmMinutes: nat)
    requires Valid(s) && token in s.tokens
    ensures var (s1, first) := VerifyStep(s, token, now, confirmMinutes);
      && first in {Expired, Confirmed}
      && Valid(s1)
      && VerifyStep(s1, token, later, confirmMinutes) == (s1, NotFound)
  {
    VerifyEffect(s, token, now, confirmMinutes);
  }

  /** `toggle_activity_booking` only ever deactivates: the booking ends
      inactive whatever it was, no other booking or field changes, and doing
      it twice is doing it once. */
  lemma ToggleEffect(s: Store, pk: BookingId)
    requires Valid(s)
    ensures var (s', outcome) := ToggleStep(s, pk);
      && Valid(s')
      && (outcome == NotFound <==> pk !in s.bookings)
      && (outcome == NotFound ==> s' == s)
      && (outcome == Ok ==>
            && s'.bookings == s.bookings[pk := s.bookings[pk].(active := false)]
            && !s'.bookings[pk].active
            && s'.tokens == s.tokens && s'.tables == s.tables && s'.nextId == s.nextId)
      && ToggleStep(s', pk) == (s', outcome)
  {
    var (s', outcome) := ToggleStep(s, pk);
    if pk in s.bookings {
      assert s'.bookings[pk := s'.bookings[pk]] == s'.bookings;
    }
  }

  /** Only the owner deletes: a refusal changes nothing; a deletion removes
      exactly that booking and its tokens. */
  lemma DeleteEffect(s: Store, actor: User, pk: BookingId)
    requires Valid(s)
    ensures var (s', outcome) := DeleteStep(s, actor, pk);
      && Valid(s')
      && (outcome == NotFound <==> pk !in s.bookings)
      && (outcome == PermissionDenied <==> pk in s.bookings && s.bookings[pk].owner != actor.id)
      && (outcome != Ok ==> s' == s)
      && (outcome == Ok ==>
            && s'.bookings == s.bookings - {pk}
            && (forall t :: t in s'.tokens <==> t in s.tokens && s.tokens[t].booking != pk)
            && (forall t :: t in s'.tokens ==> s'.tokens[t] == s.tokens[t])
            && s'.tables == s.tables && s'.nextId == s.nextId)
  {
  }

  /** Nobody but the owner can change or delete a booking, however
      privileged: a moderator is refused as anybody else, and the store is
      left as it was. */
  lemma {:induction false} OnlyOwnerMutates(s: Store, actor: User, pk: BookingId, form: BookingForm, entropy: seq<Byte>, now: Instant)
    requires |entropy| == TokenBytes
    requires pk in s.bookings && s.bookings[pk].owner != actor.id
    ensures UpdateStep(s, actor, pk, form, entropy, now) == (s, PermissionDenied)
    ensures DeleteStep(s, actor, pk) == (s, PermissionDenied)
    ensures !MayAct(actor, s.bookings[pk].owner, Update) && !MayAct(actor, s.bookings[pk].owner, Delete)
  {
  }

  /** The update and delete handlers apply the permission table: on an
      existing booking, the request is refused exactly when `MayAct` forbids
      that action to the requester, and a request that is not refused goes
      through. */
  lemma GatesFollowMayAct(s: Store, actor: User, pk: BookingId, form: BookingForm, entropy: seq<Byte>, now: Instant)
    requires |entropy| == TokenBytes && pk in s.bookings
    ensures var outcome := UpdateStep(s, actor, pk, form, entropy, now).1;
      (outcome == PermissionDenied <==> !MayAct(actor, s.bookings[pk].owner, Update))
      && (outcome == Ok <==> MayAct(actor, s.bookings[pk].owner, Update))
    ensures DeleteStep(s, actor, pk).1 == PermissionDenied <==> !MayAct(actor, s.bookings[pk].owner, Delete)
    ensures DeleteStep(s, actor, pk).1 == Ok <==> MayAct(actor, s.bookings[pk].owner, Delete)
  {
  }
}
