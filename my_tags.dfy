/** The template filters and tags of `restaurant/templatetags/my_tags.py`.

    Each filter is a pure function of its arguments; the wall clock read by
    `has_been` and the random choices made by `generate_fake_mail` are
    parameters here. */
module TemplateTags {
  import opened Wrappers
  import opened Clock

  // ---------------------------------------------------------------------
  // time_to_local, time_offset

  /** `time_to_local(value, arg)` on a datetime: moved by `arg` hours (the
      user's time-zone offset), so the clock reading wraps around midnight
      and the date moves by the whole days the shift carries over. */
  function TimeToLocal(value: Instant, arg: int): (local: Instant)
    ensures TimeOf(local) == (TimeOf(value) + arg * MicrosPerHour) % MicrosPerDay
    ensures DateOf(local) == DateOf(value) + (TimeOf(value) + arg * MicrosPerHour) / MicrosPerDay
  {
    ShiftFields(value, arg * MicrosPerHour);
    AddHours(value, arg)
  }

  /** `time_offset(value, arg)` on a datetime: written separately in the
      source, with the same effect on the date and the clock reading. */
  function TimeOffset(value: Instant, arg: int): (shifted: Instant)
    ensures TimeOf(shifted) == (TimeOf(value) + arg * MicrosPerHour) % MicrosPerDay
    ensures DateOf(shifted) == DateOf(value) + (TimeOf(value) + arg * MicrosPerHour) / MicrosPerDay
  {
    ShiftFields(value, arg * MicrosPerHour);
    value + arg * MicrosPerHour
  }

  /** Either filter on a plain `date`: `date + timedelta(hours=arg)` adds
      only the whole days of the delta, `timedelta(hours=arg).days`, which is
      `arg` hours rounded down to days (a negative offset goes back a day). */
  function DateToLocal(value: Day, arg: int): (d: Day)
    ensures (d - value) * 24 <= arg < (d - value + 1) * 24
  {
    value + arg / 24
  }

  /** On a date, the filters move the day as the same shift moves that day's
      midnight. */
  lemma DateToLocalAgreesAtMidnight(value: Day, arg: int)
    ensures DateToLocal(value, arg) == DateOf(TimeToLocal(value * MicrosPerDay, arg))
  {
    assert TimeOf(value * MicrosPerDay) == 0 by {
      DateOfUnique(value * MicrosPerDay, value);
    }
  }

  /** Moving an instant by `delta` microseconds: the new time of day is the
      old one plus `delta` modulo a day, the carry goes to the date. */
  lemma ShiftFields(value: Instant, delta: int)
    ensures TimeOf(value + delta) == (TimeOf(value) + delta) % MicrosPerDay
    ensures DateOf(value + delta) == DateOf(value) + (TimeOf(value) + delta) / MicrosPerDay
  {
    var sum := TimeOf(value) + delta;
    var d := DateOf(value) + sum / MicrosPerDay;
    assert value + delta == d * MicrosPerDay + sum % MicrosPerDay;
    DateOfUnique(value + delta, d);
  }

  /** The two filters agree on every input, and moving back by the same
      offset restores the original instant. */
  lemma TimeFiltersAgree(value: Instant, arg: int)
    ensures TimeToLocal(value, arg) == TimeOffset(value, arg)
    ensures TimeOffset(TimeToLocal(value, arg), -arg) == value
    ensures DateOf(TimeToLocal(value, 24 * arg)) == DateOf(value) + arg
  {
    var local := TimeToLocal(value, 24 * arg);
    assert local == value + arg * MicrosPerDay;
    assert DateOf(value) * MicrosPerDay <= value < (DateOf(value) + 1) * MicrosPerDay;
    assert (DateOf(value) + arg) * MicrosPerDay <= local < (DateOf(value) + arg + 1) * MicrosPerDay;
    DateOfUnique(local, DateOf(value) + arg);
  }

  lemma DateOfUnique(t: Instant, d: Day)
    requires d * MicrosPerDay <= t < (d + 1) * MicrosPerDay
    ensures DateOf(t) == d
  {
    CompareByUnit(DateOf(t), t - DateOf(t) * MicrosPerDay, d, t - d * MicrosPerDay, MicrosPerDay);
  }

  /** Numbers written as `a * unit + x` with `0 <= x < unit` compare
      lexicographically on `(a, x)`. */
  lemma CompareByUnit(a1: int, x1: int, a2: int, x2: int, unit: int)
    requires 0 <= x1 < unit && 0 <= x2 < unit
    ensures a1 * unit + x1 > a2 * unit + x2 <==> a1 > a2 || (a1 == a2 && x1 > x2)
    ensures a1 * unit + x1 == a2 * unit + x2 <==> a1 == a2 && x1 == x2
  {
    if a1 > a2 {
      assert a1 * unit >= (a2 + 1) * unit;
    } else if a1 < a2 {
      assert (a1 + 1) * unit <= a2 * unit;
    }
  }

  // ---------------------------------------------------------------------
  // has_been

  /** `has_been(value, arg)` with the clock reading `now` as a parameter: the
      booking instant is the date of `value` at the hour and minute of `arg`
      (its seconds and microseconds dropped); the booking "has been" unless
      that instant is strictly later than `now`. */
  function HasBeen(value: Instant, arg: TimeOfDay, now: Instant): bool
  {
    var booked := At(DateOf(value), HourOf(arg), MinuteOf(arg));
    !(booked > now)
  }

  /** A reference definition on calendar fields: the booking is still ahead
      exactly when its date is later than today, or it is today and its
      (hour, minute) is later than the current (hour, minute).  Reaching the
      booked minute already counts as "has been". */
  lemma {:induction false} HasBeenByFields(value: Instant, arg: TimeOfDay, now: Instant)
    ensures !HasBeen(value, arg, now) <==>
      || DateOf(value) > DateOf(now)
      || (DateOf(value) == DateOf(now) && HourOf(arg) > HourOf(TimeOf(now)))
      || (DateOf(value) == DateOf(now) && HourOf(arg) == HourOf(TimeOf(now))
          && MinuteOf(arg) > MinuteOf(TimeOf(now)))
  {
    var d, h, m := DateOf(value), HourOf(arg), MinuteOf(arg);
    var dn, r := DateOf(now), TimeOf(now);
    var hn, mn := HourOf(r), MinuteOf(r);
    var x := h * MicrosPerHour + m * MicrosPerMinute;
    var rh := r - hn * MicrosPerHour;
    // compare the dates, then the hours within the day, then the minutes
    CompareByUnit(d, x, dn, r, MicrosPerDay);
    CompareByUnit(h, m * MicrosPerMinute, hn, rh, MicrosPerHour);
    CompareByUnit(m, 0, mn, rh - mn * MicrosPerMinute, MicrosPerMinute);
  }

  /** Once a booking has been, it stays so as time goes on; the seconds of
      `arg` and the time of day of `value` play no part. */
  lemma HasBeenStable(value: Instant, arg: TimeOfDay, now: Instant, later: Instant,
                      value': Instant, arg': TimeOfDay)
    requires now <= later
    requires DateOf(value') == DateOf(value)
    requires HourOf(arg') == HourOf(arg) && MinuteOf(arg') == MinuteOf(arg)
    ensures HasBeen(value, arg, now) ==> HasBeen(value, arg, later)
    ensures HasBeen(value', arg', now) == HasBeen(value, arg, now)
    ensures HasBeen(value, arg, At(DateOf(value), HourOf(arg), MinuteOf(arg)))
  {
  }

  // ---------------------------------------------------------------------
  // generate_fake_mail

  /** `string.ascii_lowercase`, `string.ascii_uppercase`, `string.digits`. */
  const AsciiLowercase: string := "abcdefghijklmnopqrstuvwxyz"
  const AsciiUppercase: string := "ABCDEFGHIJKLMNOPQRSTUVWXYZ"
  const Digits: string := "0123456789"

  /** `string.ascii_letters + string.digits`, in Python's order. */
  const AsciiLettersDigits: string := AsciiLowercase + AsciiUppercase + Digits

  predicate IsLower(c: char) { 'a' <= c <= 'z' }

  predicate IsAlnum(c: char) { IsLower(c) || 'A' <= c <= 'Z' || '0' <= c <= '9' }

  /** `len(range(n))`. */
  function RangeLength(n: int): nat
  {
    if n < 0 then 0 else n
  }

  /** Valid results of `random.choice(alphabet)`, one per draw: indices into
      the alphabet. */
  predicate ValidPicks(picks: seq<nat>, alphabet: string)
  {
    forall i :: 0 <= i < |picks| ==> picks[i] < |alphabet|
  }

  /** `"".join(random.choice(alphabet) for _ in ...)` with the draws given. */
  function Draw(alphabet: string, picks: seq<nat>): (word: string)
    requires ValidPicks(picks, alphabet)
    ensures |word| == |picks|
    ensures forall i :: 0 <= i < |word| ==> word[i] == alphabet[picks[i]]
  {
    seq(|picks|, i requires 0 <= i < |picks| => alphabet[picks[i]])
  }

  /** `generate_fake_mail(length)` with the random draws as parameters: the
      first `length` draws choose the local part from letters and digits, the
      next `length // 2` the domain from lower-case letters.  A negative
      `length` makes both ranges empty. */
  function GenerateFakeMail(length: int, localPicks: seq<nat>, domainPicks: seq<nat>): (mail: string)
    requires |localPicks| == RangeLength(length) && ValidPicks(localPicks, AsciiLettersDigits)
    requires |domainPicks| == RangeLength(length / 2) && ValidPicks(domainPicks, AsciiLowercase)
    ensures var l, d := RangeLength(length), RangeLength(length / 2);
      && |mail| == l + 1 + d + 4
      && (forall i :: 0 <= i < l ==> IsAlnum(mail[i]))
      && mail[l] == '@'
      && (forall i :: l < i <= l + d ==> IsLower(mail[i]))
      && mail[l + 1 + d..] == ".com"
  {
    AlphabetsAreAlnum();
    Draw(AsciiLettersDigits, localPicks) + "@" + Draw(AsciiLowercase, domainPicks) + ".com"
  }

  lemma AlphabetsAreAlnum()
    ensures forall i :: 0 <= i < |AsciiLettersDigits| ==> IsAlnum(AsciiLettersDigits[i])
    ensures forall i :: 0 <= i < |AsciiLowercase| ==> IsLower(AsciiLowercase[i])
  {
    var lower, upper, digits := AsciiLowercase, AsciiUppercase, Digits;
    assert lower == "abcdefghijklmnopqrstuvwxyz";
    assert upper == "ABCDEFGHIJKLMNOPQRSTUVWXYZ";
    assert digits == "0123456789";
    assert forall i :: 0 <= i < |upper| ==> 'A' <= upper[i] <= 'Z';
    assert forall i :: 0 <= i < |digits| ==> '0' <= digits[i] <= '9';
  }

  /** The generated address splits at its single `@` into the local part and
      `<domain>.com`: no drawn character is an `@`. */
  lemma FakeMailHasOneAt(length: int, localPicks: seq<nat>, domainPicks: seq<nat>)
    requires |localPicks| == RangeLength(length) && ValidPicks(localPicks, AsciiLettersDigits)
    requires |domainPicks| == RangeLength(length / 2) && ValidPicks(domainPicks, AsciiLowercase)
    ensures var mail := GenerateFakeMail(length, localPicks, domainPicks);
      forall i :: 0 <= i < |mail| ==> (mail[i] == '@' <==> i == RangeLength(length))
  {
    var mail := GenerateFakeMail(length, localPicks, domainPicks);
    var l, d := RangeLength(length), RangeLength(length / 2);
    forall i | 0 <= i < |mail|
      ensures mail[i] == '@' <==> i == l
    {
      if l + 1 + d <= i {
        assert mail[i] == mail[l + 1 + d..][i - (l + 1 + d)];
      }
    }
  }

  /** The tag's default, `length=10`: ten characters, `@`, five, `.com`. */
  lemma DefaultFakeMailLength(localPicks: seq<nat>, domainPicks: seq<nat>)
    requires |localPicks| == 10 && ValidPicks(localPicks, AsciiLettersDigits)
    requires |domainPicks| == 5 && ValidPicks(domainPicks, AsciiLowercase)
    ensures |GenerateFakeMail(10, localPicks, domainPicks)| == 20
  {
  }

  // ---------------------------------------------------------------------
  // last_five_contacts

  /** Python's `s[lo:hi]` for non-negative bounds: both ends clamp to the
      length, and an empty slice results when `lo >= hi`. */
  function Slice<T>(s: seq<T>, lo: nat, hi: nat): (r: seq<T>)
    ensures lo <= hi ==> |r| == (if hi <= |s| then hi else |s|) - (if lo <= |s| then lo else |s|)
    ensures lo <= |s| && |s| <= hi ==> r == s[lo..]
    ensures lo <= hi <= |s| ==> r == s[lo..hi]
  {
    var h := if hi < |s| then hi else |s|;
    var l := if lo < h then lo else h;
    s[l..h]
  }

  /** `last_five_contacts(query_set)`. */
  function LastFiveContacts<T>(contacts: seq<T>): seq<T>
  {
    var number := |contacts|;
    if number <= 5 then contacts else Slice(contacts, number - 5, number + 1)
  }

  /** At most five elements come back unchanged; otherwise exactly the last
      five, in their original order (the slice end `number + 1` clamps to the
      length). */
  lemma LastFiveContactsSuffix<T>(contacts: seq<T>)
    ensures |contacts| <= 5 ==> LastFiveContacts(contacts) == contacts
    ensures |contacts| > 5 ==> |LastFiveContacts(contacts)| == 5
    ensures LastFiveContacts(contacts) == contacts[|contacts| - |LastFiveContacts(contacts)|..]
  {
  }

  /** A new contact pushes out the oldest of the five shown. */
  lemma LastFiveContactsShift<T>(contacts: seq<T>, x: T)
    requires |contacts| >= 5
    ensures LastFiveContacts(contacts + [x]) == LastFiveContacts(contacts)[1..] + [x]
  {
    var n := |contacts|;
    LastFiveContactsSuffix(contacts);
    LastFiveContactsSuffix(contacts + [x]);
    assert LastFiveContacts(contacts + [x]) == (contacts + [x])[n - 4..];
    assert LastFiveContacts(contacts) == contacts[n - 5..];
  }

  // ---------------------------------------------------------------------
  // media_filter, user_media_filter

  const MediaPrefix: string := "/media/"
  const NoImage: string := "/static/image/no_image.png"
  const NoAvatar: string := "/static/image/no_avatar.png"

  /** Python truthiness of a file-field value: `None` and the empty name are
      false. */
  predicate IsSet(path: Option<string>)
  {
    path.Some? && path.value != ""
  }

  /** `media_filter(path)`. */
  function MediaFilter(path: Option<string>): string
  {
    if IsSet(path) then MediaPrefix + path.value else NoImage
  }

  /** `user_media_filter(path)`. */
  function UserMediaFilter(path: Option<string>): string
  {
    if IsSet(path) then MediaPrefix + path.value else NoAvatar
  }

  /** The stored path behind a `/media/` URL, if the URL is one. */
  function MediaPathOf(url: string): (path: Option<string>)
    ensures path.Some? ==> url == MediaPrefix + path.value
  {
    if |url| >= |MediaPrefix| && url[..|MediaPrefix|] == MediaPrefix
    then Some(url[|MediaPrefix|..])
    else None
  }

  /** A set path is served from under `/media/` and can be read back from the
      URL; an unset one gives the placeholder, which is not a media URL. */
  lemma {:induction false} MediaFilterRoundTrip(path: Option<string>)
    ensures MediaPathOf(MediaFilter(path)) == (if IsSet(path) then path else None)
    ensures MediaPathOf(UserMediaFilter(path)) == (if IsSet(path) then path else None)
    ensures !IsSet(path) ==> MediaFilter(path) == NoImage && UserMediaFilter(path) == NoAvatar
  {
    if IsSet(path) {
      assert (MediaPrefix + path.value)[..|MediaPrefix|] == MediaPrefix;
      assert (MediaPrefix + path.value)[|MediaPrefix|..] == path.value;
    } else {
      assert NoImage[1] != MediaPrefix[1];
      assert NoAvatar[1] != MediaPrefix[1];
    }
  }
}
