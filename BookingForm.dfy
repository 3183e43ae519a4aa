/**
 * The venue page's booking request form: four add-on flags toggled one at
 * a time, and a submit handler that checks the required fields, then the
 * email address, then the phone number, reports the first failure, and
 * otherwise hands the collected request to its caller.
 */
module BookingForm {
  import opened Wrappers
  import Text

  // ---------------------------------------------------------------- add-on flags

  datatype ServiceKey = Catering | Decoration | Music | Photography

  /** The four add-service checkboxes. */
  datatype AddOns = AddOns(catering: bool, decoration: bool, music: bool, photography: bool)

  /** Every checkbox starts unticked. */
  const NoAddOns := AddOns(false, false, false, false)

  function Get(a: AddOns, k: ServiceKey): bool
  {
    match k
    case Catering => a.catering
    case Decoration => a.decoration
    case Music => a.music
    case Photography => a.photography
  }

  /** `{...prev, [service]: !prev[service]}`: the named flag is inverted and the other three are kept. */
  function Flip(a: AddOns, k: ServiceKey): (r: AddOns)
    ensures Get(r, k) == !Get(a, k)
    ensures forall j :: j != k ==> Get(r, j) == Get(a, j)
  {
    match k
    case Catering => a.(catering := !a.catering)
    case Decoration => a.(decoration := !a.decoration)
    case Music => a.(music := !a.music)
    case Photography => a.(photography := !a.photography)
  }

  /** Flipping the same flag twice gives back the flags as they were. */
  lemma FlipTwice(a: AddOns, k: ServiceKey)
    ensures Flip(Flip(a, k), k) == a
  {
  }

  // ---------------------------------------------------------------- email

  /** A character `[^\s@]` accepts. */
  predicate Plain(c: char)
  {
    !Text.IsJsWhitespace(c) && c != '@'
  }

  predicate AllPlain(s: string)
  {
    forall k :: 0 <= k < |s| ==> Plain(s[k])
  }

  /**
   * `e` matches `^[^\s@]+@[^\s@]+\.[^\s@]+$` with the `@` at `i` and the
   * chosen `.` at `j`: three non-empty runs of plain characters around them.
   */
  ghost predicate EmailShape(e: string, i: int, j: int)
  {
    0 < i && i + 1 < j && j + 1 < |e| && e[i] == '@' && e[j] == '.' &&
    AllPlain(e[..i]) && AllPlain(e[i + 1..j]) && AllPlain(e[j + 1..])
  }

  ghost predicate MatchesEmailPattern(e: string)
  {
    exists i, j :: EmailShape(e, i, j)
  }

  /** The part after the `@`: plain characters with a `.` that is neither first nor last. */
  predicate ValidDomain(d: string)
  {
    |d| >= 3 && AllPlain(d) && '.' in d[1..|d| - 1]
  }

  /** The email test, split at the first `@`. */
  function ValidEmail(e: string): bool
  {
    match Text.FindFrom(e, "@", 0)
    case None => false
    case Some(i) => i > 0 && AllPlain(e[..i]) && ValidDomain(e[i + 1..])
  }

  /** The email test accepts exactly the strings the regular expression matches. */
  lemma ValidEmailIff(e: string)
    ensures ValidEmail(e) <==> MatchesEmailPattern(e)
  {
    if ValidEmail(e) {
      ValidEmailMatches(e);
    }
    if MatchesEmailPattern(e) {
      var i, j :| EmailShape(e, i, j);
      MatchesValidEmail(e, i, j);
    }
  }

  lemma ValidEmailMatches(e: string)
    requires ValidEmail(e)
    ensures MatchesEmailPattern(e)
  {
    var i := Text.FindFrom(e, "@", 0).value;
    Text.FindFromFound(e, "@", 0);
    assert e[i..i + 1] == "@";
    var d := e[i + 1..];
    var m := d[1..|d| - 1];
    var k :| 0 <= k < |m| && m[k] == '.';
    var j := i + 2 + k;
    assert e[j] == d[k + 1] == '.';
    var host, tld := e[i + 1..j], e[j + 1..];
    forall x | 0 <= x < |host| ensures Plain(host[x]) {
      assert host[x] == d[x];
    }
    forall x | 0 <= x < |tld| ensures Plain(tld[x]) {
      assert tld[x] == d[k + 2 + x];
    }
    assert EmailShape(e, i, j);
  }

  lemma MatchesValidEmail(e: string, i: int, j: int)
    requires EmailShape(e, i, j)
    ensures ValidEmail(e)
  {
    assert e[i..i + 1] == "@";
    forall k | 0 <= k < i ensures !Text.OccursAt(e, "@", k) {
      assert e[..i][k] == e[k];
    }
    Text.FindFromAt(e, "@", 0, i);
    var d := e[i + 1..];
    forall k | 0 <= k < |d| ensures Plain(d[k]) {
      if i + 1 + k < j {
        assert d[k] == e[i + 1..j][k];
      } else if i + 1 + k > j {
        assert d[k] == e[j + 1..][i + k - j];
      }
    }
    assert d[1..|d| - 1][j - i - 2] == '.';
  }

  /** A valid address has exactly one `@`, not at the start, and no whitespace anywhere. */
  lemma ValidEmailShape(e: string)
    requires ValidEmail(e)
    ensures exists i :: 0 < i < |e| && e[i] == '@' && forall k :: 0 <= k < |e| && k != i ==> Plain(e[k])
  {
    var i := Text.FindFrom(e, "@", 0).value;
    Text.FindFromFound(e, "@", 0);
    assert e[i..i + 1] == "@";
    var d := e[i + 1..];
    forall k | 0 <= k < |e| && k != i ensures Plain(e[k]) {
      if k < i {
        assert e[k] == e[..i][k];
      } else {
        assert e[k] == d[k - i - 1];
      }
    }
  }

  lemma EmailExamples()
    ensures ValidEmail("a@b.c")
    ensures !ValidEmail("a@b")
  {
    assert "a@b.c"[1..2] == "@";
    assert !Text.OccursAt("a@b.c", "@", 0) by { assert "a@b.c"[0..1] == "a"; }
    Text.FindFromAt("a@b.c", "@", 0, 1);
    assert "a@b.c"[..1] == "a" && "a@b.c"[2..] == "b.c" && "b.c"[1..2] == ".";
    assert "a@b"[1..2] == "@";
    assert !Text.OccursAt("a@b", "@", 0) by { assert "a@b"[0..1] == "a"; }
    Text.FindFromAt("a@b", "@", 0, 1);
    assert "a@b"[2..] == "b";
  }

  // ---------------------------------------------------------------- submit

  const RequiredMessage := "Please fill out all required fields"
  const EmailMessage := "Please enter a valid email address"
  const PhoneMessage := "Please enter a valid phone number"
  const SubmittedMessage := "Booking request submitted successfully!"

  /** The minimum length of an acceptable phone number. */
  const MinPhoneLength := 10

  /** A toast shown to the user. */
  datatype Notice = Error(text: string) | Success(text: string)

  /** The values the form holds; a date is a day number, and an unset select is `None`. */
  datatype Fields = Fields(
    date: Option<int>,
    time: Option<string>,
    guests: Option<string>,
    name: string,
    email: string,
    phone: string,
    eventType: Option<string>,
    addOns: AddOns)

  /** `bookingData`: what the form hands to `onSubmit`. */
  datatype BookingData = BookingData(
    venueId: Option<string>,
    venueName: Option<string>,
    date: int,
    time: string,
    guests: string,
    name: string,
    email: string,
    phone: string,
    eventType: string,
    addOns: AddOns)

  /** JavaScript truthiness of an optional string: present and not empty. */
  predicate Given(s: Option<string>)
  {
    s.Some? && s.value != ""
  }

  /** Every one of the seven required values is set. */
  predicate RequiredPresent(f: Fields)
  {
    f.date.Some? && Given(f.time) && Given(f.guests) && f.name != "" && f.email != "" && f.phone != "" && Given(f.eventType)
  }

  /**
   * `handleSubmit`'s checks in order: the first that fails gives its error;
   * when all pass, the request built from the current values.
   */
  function Submit(f: Fields, venueId: Option<string>, venueName: Option<string>): (r: Result<BookingData, string>)
    ensures r == Err(RequiredMessage) <==> !RequiredPresent(f)
    ensures r == Err(EmailMessage) <==> RequiredPresent(f) && !ValidEmail(f.email)
    ensures r == Err(PhoneMessage) <==> RequiredPresent(f) && ValidEmail(f.email) && Text.Utf16Length(f.phone) < MinPhoneLength
    ensures r.Ok? <==> RequiredPresent(f) && ValidEmail(f.email) && Text.Utf16Length(f.phone) >= MinPhoneLength
    ensures r.Ok? ==> r.value.venueId == venueId && r.value.venueName == venueName && Some(r.value.date) == f.date
    ensures r.Ok? ==> Some(r.value.time) == f.time && Some(r.value.guests) == f.guests && Some(r.value.eventType) == f.eventType
    ensures r.Ok? ==> r.value.name == f.name && r.value.email == f.email && r.value.phone == f.phone && r.value.addOns == f.addOns
  {
    if !RequiredPresent(f) then Err(RequiredMessage)
    else if !ValidEmail(f.email) then Err(EmailMessage)
    else if Text.Utf16Length(f.phone) < MinPhoneLength then Err(PhoneMessage)
    else Ok(BookingData(venueId, venueName, f.date.value, f.time.value, f.guests.value,
                        f.name, f.email, f.phone, f.eventType.value, f.addOns))
  }

  /** Filled-in fields with a valid email and the given phone number. */
  function WithPhone(phone: string): (f: Fields)
    ensures phone != "" ==> RequiredPresent(f) && ValidEmail(f.email)
  {
    EmailExamples();
    Fields(Some(1), Some("18:00"), Some("50"), "Ada", "a@b.c", phone, Some("wedding"), NoAddOns)
  }

  /**
   * The phone check counts UTF-16 code units: nine digits are too short,
   * ten digits pass, and so do five emoji.
   */
  lemma PhoneExamples()
    ensures Submit(WithPhone("555010010"), None, None) == Err(PhoneMessage)
    ensures Submit(WithPhone("5550100100"), None, None).Ok?
    ensures Submit(WithPhone("\U{1F600}\U{1F600}\U{1F600}\U{1F600}\U{1F600}"), None, None).Ok?
  {
    Text.Utf16LengthBmp("555010010");
    Text.Utf16LengthBmp("5550100100");
    Text.EmojiLength();
  }

  /** The form component: its props and its state. */
  class Form {
    const venueId: Option<string>
    const venueName: Option<string>
    var fields: Fields

    /** A fresh form: nothing chosen, empty texts, no add-ons. */
    constructor (venueId: Option<string>, venueName: Option<string>)
      ensures this.venueId == venueId && this.venueName == venueName
      ensures fields == Fields(None, None, None, "", "", "", None, NoAddOns)
    {
      this.venueId := venueId;
      this.venueName := venueName;
      fields := Fields(None, None, None, "", "", "", None, NoAddOns);
    }

    /** `handleServiceChange`: inverts one add-on flag and changes nothing else. */
    method HandleServiceChange(k: ServiceKey)
      modifies this
      ensures fields == old(fields).(addOns := Flip(old(fields).addOns, k))
    {
      fields := fields.(addOns := Flip(fields.addOns, k));
    }

    /**
     * `handleSubmit`: the toast shown, and the request passed to `onSubmit`
     * when the caller supplied one and every check passed.
     */
    method HandleSubmit(hasOnSubmit: bool) returns (notice: Notice, delivered: Option<BookingData>)
      ensures !RequiredPresent(fields) ==> notice == Error(RequiredMessage) && delivered == None
      ensures RequiredPresent(fields) && !ValidEmail(fields.email) ==> notice == Error(EmailMessage) && delivered == None
      ensures RequiredPresent(fields) && ValidEmail(fields.email) && Text.Utf16Length(fields.phone) < MinPhoneLength ==>
        notice == Error(PhoneMessage) && delivered == None
      ensures notice == Success(SubmittedMessage) <==> Submit(fields, venueId, venueName).Ok?
      ensures delivered.Some? <==> hasOnSubmit && Submit(fields, venueId, venueName).Ok?
      ensures delivered.Some? ==> delivered == Some(Submit(fields, venueId, venueName).value)
    {
      match Submit(fields, venueId, venueName)
      case Err(message) =>
        notice := Error(message);
        delivered := None;
      case Ok(data) =>
        notice := Success(SubmittedMessage);
        delivered := if hasOnSubmit then Some(data) else None;
    }
  }
}
