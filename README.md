# Restaurant table booking: booking lifecycle and template filters

A Dafny model of two parts of a Django restaurant-booking site.

The first part is the booking lifecycle of `restaurant/views.py`:

- A logged-in user creates or edits a booking. It is saved inactive with the user as owner.
- A 32-character hexadecimal token is stored for it, and a confirmation link is handed to the mail queue.
- Visiting the link within `confirm_timedelta` minutes deletes the token and activates the booking.
- A later visit deletes the booking and its token.
- The booking form shows the "actual" bookings. These are the active ones plus the pending ones whose token is still inside the window, ordered by date and start time, together with the tables they occupy.
- `toggle_activity_booking` only deactivates.
- Update and delete are refused with `PermissionDenied` to anyone but the owner, before anything is written.
- Every handler that writes recomputes or empties the booking-list cache. The delete view empties it before it deletes (restaurant/views.py:313, then 315).

The second part is the set of template filters of `restaurant/templatetags/my_tags.py`: the last-five slice, the media URL builders with their placeholders, the hour shift, `has_been`, and the fake-mail generator.

Layout, one module per file:

- `wrappers.dfy` (`Wrappers`): `Option`.
- `clock.dfy` (`Clock`): instants in microseconds, day numbers, times of day, and the (date, start time) sort key.
- `my_tags.dfy` (`TemplateTags`): the template filters.
- `ordering.dfy` (`Ordering`): `order_by` as a sorted permutation, and the distinct rows of a `pk__in` filter.
- `permissions.dfy` (`Permissions`): users, the ownership and role tests, and the question-form role switch.
- `tokens.dfy` (`Tokens`): `secrets.token_hex(16)` from its sixteen random bytes, and the decoding back to bytes.
- `bookings.dfy` (`Bookings`): the database state and each handler's transition on it, as pure functions with their properties.
- `booking_lists.dfy` (`BookingLists`): the actual-bookings list, its tables, a user's own list, and lemmas that follow a booking across several requests.
- `booking_views.dfy` (`BookingViews`): the class `BookingService`. Its fields are the booking, token and table maps, the cache and the mail queue. Each handler is a method proved to perform its transition from `Bookings` and to keep the cache equal to the booking table whenever the cache is filled.

Time is an integer number of microseconds. The clock reading (`timezone.now()`, `datetime.now()`), the random bytes of the token, the random draws of `generate_fake_mail`, and the request host are all parameters. `confirm_timedelta` is a constant of the service object, read once as `PARAMETERS` is.

Three facts about the code shape the model:

- Moderators cannot update or delete another user's booking. The only test is `user == self.object.user` (restaurant/views.py:295 and 312).
- The owner-or-moderator tests at restaurant/views.py:107-112 and 325-336 are never called (see "Left out").
- Verification deletes and saves in separate statements (restaurant/views.py:260-267). The model runs each request to completion, one after another.

## Model

| member | source | states |
|---|---|---|
| `TemplateTags.TimeToLocal` | restaurant/templatetags/my_tags.py:20-24 | the shifted clock reading is the old one plus `arg` hours, modulo a day; the date moves by the whole days that sum carries over, backwards for a negative offset |
| `TemplateTags.TimeOffset` | restaurant/templatetags/my_tags.py:38-42 | the shifted clock reading is the old one plus `arg` hours, modulo a day; the date moves by the whole days that sum carries over, backwards for a negative offset (the same effect as `time_to_local`) |
| `TemplateTags.DateToLocal` | restaurant/templatetags/my_tags.py:20-24 | on a plain `date`, either filter moves the day by `arg` hours rounded down to whole days (`timedelta(hours=arg).days`), so a negative offset goes back a day |
| `TemplateTags.DateToLocalAgreesAtMidnight` | restaurant/templatetags/my_tags.py:20-42 | on a date, the filters move the day as the same shift moves that day's midnight |
| `TemplateTags.TimeFiltersAgree` | restaurant/templatetags/my_tags.py:20-42 | `time_to_local` and `time_offset` agree on every input; shifting back by `-arg` restores the value; a shift of `24*k` hours moves the date by `k` days |
| `TemplateTags.HasBeen` | restaurant/templatetags/my_tags.py:27-35 | no contract of its own; `HasBeenByFields` and `HasBeenStable` state its meaning |
| `TemplateTags.HasBeenByFields` | restaurant/templatetags/my_tags.py:27-35 | `has_been` is false exactly when the date of `value` is after today, or it is today and `arg`'s (hour, minute) is after the current (hour, minute); reaching the booked minute counts as true |
| `TemplateTags.HasBeenStable` | restaurant/templatetags/my_tags.py:27-35 | once true it stays true as `now` grows; `arg`'s seconds and `value`'s time of day are ignored; equality with `now` gives true |
| `TemplateTags.GenerateFakeMail` | restaurant/templatetags/my_tags.py:46-54 | the result is `length` letters or digits, `@`, `length // 2` lower-case letters, then `.com`; a negative length gives empty parts |
| `TemplateTags.FakeMailHasOneAt` | restaurant/templatetags/my_tags.py:49-54 | the generated address holds exactly one `@`, at index `length` |
| `TemplateTags.DefaultFakeMailLength` | restaurant/templatetags/my_tags.py:47-54 | with the default `length=10` the address has 20 characters |
| `TemplateTags.Slice` | restaurant/templatetags/my_tags.py:64 | Python slicing clamps both bounds to the length; within the bounds it is the ordinary slice; a bound past the end slices to the end |
| `TemplateTags.LastFiveContacts` | restaurant/templatetags/my_tags.py:58-64 | no contract of its own; `LastFiveContactsSuffix` and `LastFiveContactsShift` state its meaning |
| `TemplateTags.LastFiveContactsSuffix` | restaurant/templatetags/my_tags.py:59-64 | at most five elements come back unchanged; otherwise exactly five, which are the last five in order |
| `TemplateTags.LastFiveContactsShift` | restaurant/templatetags/my_tags.py:59-64 | appending one element to five or more drops the oldest of the five shown and adds the new one at the end |
| `TemplateTags.MediaFilter` | restaurant/templatetags/my_tags.py:67-72 | no contract of its own; `MediaFilterRoundTrip` states its meaning |
| `TemplateTags.UserMediaFilter` | restaurant/templatetags/my_tags.py:75-80 | no contract of its own; `MediaFilterRoundTrip` states its meaning |
| `TemplateTags.MediaFilterRoundTrip` | restaurant/templatetags/my_tags.py:67-80 | a non-empty path becomes `/media/<path>` and can be read back; `None` or an empty path gives `no_image.png` (`media_filter`) or `no_avatar.png` (`user_media_filter`), which is not a media URL |
| `Permissions.MayAct` | restaurant/views.py:293-336 | the permission table; its contract only names which of the two tests (owner, or owner-or-moderator) each action uses; `BookingRoles` and `Bookings.GatesFollowMayAct` state what it means |
| `Permissions.BookingRoles` | restaurant/views.py:293-336 | the owner may do everything; a moderator who is not the owner may only view; anybody else may do nothing |
| `Permissions.QuestionFormFor` | restaurant/views.py:381-386 | no contract of its own; `QuestionRoleSwitch` states its meaning |
| `Permissions.QuestionSuccessUrl` | restaurant/views.py:395-401 | no contract of its own; `QuestionRoleSwitch` states its meaning |
| `Permissions.QuestionRoleSwitch` | restaurant/views.py:381-401 | staff and superusers get `QuestionsForm` and go back to the question list; everyone else, anonymous visitors included, gets `LimitedQuestionsForm` and the `question_premoderated` page; the two switches always agree |
| `Tokens.TokenHex` | restaurant/views.py:148 | sixteen random bytes become a token of 32 lower-case hexadecimal characters |
| `Tokens.HexRoundTrip` | restaurant/views.py:148 | decoding the hexadecimal text gives back the bytes it was made from |
| `Tokens.TokenHexInjective` | restaurant/views.py:148 | different random bytes give different tokens |
| `Bookings.RemoveBooking` | restaurant/views.py:260-261 | no contract of its own; `VerifyEffect` and `DeleteEffect` state what it removes and keeps |
| `Bookings.SaveForm` | restaurant/views.py:143-154 | no contract of its own; `CreateEffect` and `UpdateEffect` state its effect |
| `Bookings.CreateStep` | restaurant/views.py:280-285 | no contract of its own; `CreateEffect` states its effect |
| `Bookings.UpdateStep` | restaurant/views.py:287-297 | no contract of its own; `UpdateEffect` and `GatesFollowMayAct` state its effect |
| `Bookings.VerifyStep` | restaurant/views.py:247-269 | no contract of its own; `VerifyEffect` states its effect |
| `Bookings.ToggleStep` | restaurant/views.py:344-351 | no contract of its own; `ToggleEffect` states its effect |
| `Bookings.DeleteStep` | restaurant/views.py:300-317 | no contract of its own; `DeleteEffect` and `GatesFollowMayAct` state its effect |
| `Bookings.CreateEffect` | restaurant/views.py:141-154 | creating saves a booking under a key never used before, owned by the requester and inactive; exactly one new well-formed token, created now, points at it; the other bookings, the other tokens and the tables are unchanged, and the next key moves up by one; the store stays well formed |
| `Bookings.UpdateEffect` | restaurant/views.py:287-297 | a missing booking is NotFound and a non-owner is PermissionDenied, both with no change and for any form; the owner's edit saves the booking inactive again and links a fresh token, with the tables and the next key unchanged |
| `Bookings.VerifyEffect` | restaurant/views.py:247-269 | an unknown token is NotFound with no change; `created_at < now - window` is Expired, which removes that booking and its tokens only; otherwise, the boundary included, it is Confirmed: the token goes and only that booking becomes active |
| `Bookings.VerifyTwiceIsNotFound` | restaurant/views.py:248-265 | after any first visit, a second visit with the same token is NotFound and changes nothing |
| `Bookings.ToggleEffect` | restaurant/views.py:344-351 | an unknown key is NotFound; otherwise the booking ends inactive whatever it was, nothing else changes, and a second toggle changes nothing |
| `Bookings.DeleteEffect` | restaurant/views.py:309-317 | a missing booking is NotFound and a non-owner is PermissionDenied, both with no change; the owner's request removes exactly that booking and its tokens; the surviving tokens, the tables and the next key are unchanged |
| `Bookings.GatesFollowMayAct` | restaurant/views.py:293-317 | on an existing booking, update and delete are refused exactly when `MayAct` forbids the action, and go through exactly when it allows it |
| `Bookings.OnlyOwnerMutates` | restaurant/views.py:293-317 | for any non-owner, moderators included, update and delete are PermissionDenied and leave the store as it was |
| `Ordering.SortBy` | restaurant/views.py:218-219 | `order_by` returns a sorted permutation of its input |
| `Ordering.SortByKeepsElements` | restaurant/views.py:218-223 | sorting keeps the length, the elements and their distinctness |
| `Ordering.DistinctIn` | restaurant/views.py:222-223 | `filter(pk__in=...)` yields each allowed key of the list exactly once |
| `BookingLists.SlotOrderIsDateTimeOrder` | restaurant/views.py:218-219 | sorting on the combined key orders bookings by date, then by start time |
| `BookingLists.PendingIds` | restaurant/views.py:208-215 | no contract of its own; `ActualBookings` states its meaning |
| `BookingLists.ActualIds` | restaurant/views.py:213-218 | no contract of its own; `ActualBookings` states its meaning |
| `BookingLists.ActualBookings` | restaurant/views.py:208-219 | the list holds exactly the pre-filtered bookings that are active or have a token created after `now - confirm_timedelta`, each once, ordered by (date, start time) |
| `BookingLists.TablesOf` | restaurant/views.py:222-225 | the tables list holds exactly the existing tables of the listed bookings, each once, ordered by number |
| `BookingLists.BookingFormContext` | restaurant/views.py:208-226 | no contract of its own; it pairs `ActualBookings` with `TablesOf`, whose contracts state its meaning |
| `BookingLists.OwnBookings` | restaurant/views.py:127-130 | the list page shows exactly the requester's bookings, each once, ordered by (date, start time) |
| `BookingLists.ConfirmedIsActual` | restaurant/views.py:264-269 | a booking confirmed by its token is in the actual list at any later time while the pre-filter keeps it |
| `BookingLists.ExpiredIsNotActual` | restaurant/views.py:259-263 | an expired booking appears neither in the actual list nor in its owner's list |
| `BookingLists.CreatedIsActualUntilDeadline` | restaurant/views.py:208-219 | a newly created booking is actual exactly until `confirm_timedelta` minutes after its creation |
| `BookingLists.DeadlineBoundary` | restaurant/views.py:215-259 | at exactly `created_at + confirm_timedelta`, a pending booking is already missing from the actual list, yet visiting its token still confirms it |
| `BookingLists.ScenarioVisitInTime` | restaurant/views.py:141-269 | a booking for table 4 at 14:00 with a 45-minute window, visited 10 minutes later, is confirmed, active and listed |
| `BookingLists.ScenarioVisitTooLate` | restaurant/views.py:141-269 | the same booking visited 50 minutes later is deleted and unlisted, and a second visit is NotFound |
| `BookingViews.ConfirmationUrl` | restaurant/views.py:156-157 | the link is `http://<host>/booking_verification/` followed by the token and `/` |
| `BookingViews.TokenOfUrl` | restaurant/views.py:157 | a link it accepts is exactly the confirmation link for the token it returns |
| `BookingViews.ConfirmationUrlRoundTrip` | restaurant/views.py:156-157 | reading the token back from a mailed link gives the token that was stored |
| `BookingViews.BookingService.Recache` | restaurant/views.py:183 | the cache afterwards holds the booking table as it is now |
| `BookingViews.BookingService.Invalidate` | restaurant/views.py:313 | the cache afterwards is empty |
| `BookingViews.BookingService.DeleteRow` | restaurant/views.py:260-261 | the state afterwards is `Bookings.RemoveBooking` of the state before: the booking and every token that points at it are gone |
| `BookingViews.BookingService.CachedBookings` | restaurant/views.py:127 | reading the cache fills it if it is empty and returns the booking table as it is now |
| `BookingViews.BookingService.FormValid` | restaurant/views.py:141-183 | the booking is saved inactive and owned by the requester, a fresh token is stored, one mail with the confirmation link goes to the requester, and the cache is recomputed |
| `BookingViews.BookingService.CreateBooking` | restaurant/views.py:280-285 | the new state and key are those of `Bookings.CreateStep`; one confirmation mail is queued; the cache is recomputed |
| `BookingViews.BookingService.UpdateBooking` | restaurant/views.py:287-297 | the new state and outcome are those of `Bookings.UpdateStep`; a refusal, whatever the form names, leaves the cache and the mail queue untouched |
| `BookingViews.BookingService.VerifyBooking` | restaurant/views.py:247-269 | the new state and outcome are those of `Bookings.VerifyStep`; Expired and Confirmed recompute the cache, NotFound leaves it |
| `BookingViews.BookingService.ToggleActivity` | restaurant/views.py:344-351 | the new state and outcome are those of `Bookings.ToggleStep`; the cache is recomputed unless the key is unknown |
| `BookingViews.BookingService.DeleteBooking` | restaurant/views.py:300-317 | the new state and outcome are those of `Bookings.DeleteStep`; the cache is emptied only on the owner's request, and a refusal writes nothing |
| `BookingViews.BookingService.ListBookings` | restaurant/views.py:114-132 | the result is exactly the requester's bookings, each once, ordered by (date, start time), read through the cache |
| `BookingViews.BookingService.BookingDetail` | restaurant/views.py:338-341 | an unknown key is a 404; otherwise the result is the booking as stored, read through the cache |

## Left out

- The page views only render templates and are not modelled:
  - `HomePageView`, `AboutUsPageView` and `questions_success` read the content store in `restaurant/utils/utils.py`, which is not part of this model.
  - `confirm_booking` passes the requester's email and `confirm_timedelta` to its template.
  - `token_expired` and `email_confirmed` only render a template (restaurant/views.py:272-277).
- The question views use a second cache, the question list, in the same pattern as the booking cache. Only the role switch of `QuestionCreateView` is modelled.
  - `QuestionListView` only reads that cache (restaurant/views.py:366).
  - `QuestionCreateView.form_valid` and `QuestionUpdateView.form_valid` save a question and recompute it.
  - `QuestionDeleteView.form_valid` empties it before the delete.
- `BookingListView.form_valid` and `BookingDetailView.form_valid` hold the owner-or-moderator test (`Permissions.OwnerOrModerator`). Django's list and detail views never call `form_valid`, so the test never runs. The modelled list still shows only the requester's bookings, because it filters by owner. The modelled detail page shows any booking to whoever asks for it.
- `toggle_activity_booking` itself tests neither login nor ownership. Whether its route adds a test depends on `restaurant/urls.py`, which is not part of this model. The model has no test, as the view has none.
- `BookingDeleteView`'s owner test and cache emptying are in `form_valid` (restaurant/views.py:309-317). Django's `DeleteView` calls `form_valid` from version 4.0 on, and deletes directly in `post` before that. The model assumes version 4.0 or later. The Django version is not part of this model.
- After the cache is recomputed, `super().form_valid(form)` at restaurant/views.py:184 saves the form a second time. That save writes the same owner, `active` flag and form fields that are already stored, so it is not modelled as a separate step.
- `LoginRequiredMixin` redirects, form validation (`ValidationError`), and the success-URL redirects of the booking views are not modelled. A form reaches `form_valid` only when it is valid. So creation, and an update by the booking's owner, require the form's table to exist and the token to be new. A missing booking (404) and a non-owner (403) are answered before any form is built, whatever the form names.
- `celery_send_mail.delay` is recorded as one entry in the mail queue: the confirmation link and the recipient list. Subject and message text are not modelled. In the source both are one-element tuples, because of trailing commas. The Celery task in `restaurant/tasks.py` is not part of this model, and neither is delivery.
- `secrets.token_hex(16)` takes its sixteen bytes as an input. A token equal to a stored one is excluded by a precondition. This means a 128-bit collision is not modelled.
- `get_actual_bookings(active=False, time_start=False)` is in `restaurant/utils/utils.py`, which is not part of this model. Its result is the parameter `candidates`.
- The cache helpers in `restaurant/templates/restaurant/services.py` are not part of this model. The cache is an optional snapshot of the booking table.
- `restaurant/models.py` is not part of this model. Deleting a booking is assumed to delete its tokens, as a foreign key must not dangle. Saving a token for a booking that already has one is assumed to add a second token. The view code does this, and no one-to-one constraint is visible.
- The database's order among bookings with equal (date, start time), or tables with equal numbers, is unspecified. The model fixes one order, so its lemmas state only sortedness and contents.
- Calendar dates are day numbers and times are microseconds. The year/month/day conversion is not modelled.
- `TemplateTags.TimeToLocal` and `TemplateTags.TimeOffset` model an integer hour offset on unbounded time. Two cases are not modelled: a fractional `arg`, which `timedelta(hours=arg)` also accepts, and the `OverflowError` Python raises when the result leaves the years 1 to 9999.
- `markdown_comment`, `comment_markdown` and `current_time` are thin wrappers over the markdown and bleach libraries and over the wall clock.
- Concurrency is not modelled. Two simultaneous visits of one token, or a cache rebuilt by one request while another writes, are outside this model.
- `users/tests/test_models.py` only checks field metadata. `config/urls.py` is routing.
