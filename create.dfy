/** The create-listing page: the form state, the validation of `handleSubmit`,
    the record it inserts into `listings`, and the page state the handler
    updates. */
module Create {
  import opened Wrappers
  import opened Text
  import opened Listings

  // ---------------------------------------------------------------- parseInt

  /** The value of a digit character in bases up to 36, or -1 for a non-digit. */
  function DigitValue(c: char): int
  {
    if '0' <= c <= '9' then c as int - '0' as int
    else if 'a' <= c <= 'z' then c as int - 'a' as int + 10
    else if 'A' <= c <= 'Z' then c as int - 'A' as int + 10
    else -1
  }

  predicate IsDigitIn(c: char, radix: nat)
  {
    0 <= DigitValue(c) < radix
  }

  /** The length of the longest prefix of `s` made of digits of `radix`. */
  function DigitRun(s: string, radix: nat): (n: nat)
    ensures n <= |s|
    ensures forall i :: 0 <= i < n ==> IsDigitIn(s[i], radix)
    ensures n < |s| ==> !IsDigitIn(s[n], radix)
  {
    if s == [] || !IsDigitIn(s[0], radix) then 0 else 1 + DigitRun(s[1..], radix)
  }

  /** The number that a string of digits denotes in `radix`. */
  function DigitsValue(ds: string, radix: nat): int
    requires forall i :: 0 <= i < |ds| ==> IsDigitIn(ds[i], radix)
  {
    if ds == [] then 0 else DigitsValue(ds[..|ds| - 1], radix) * radix + DigitValue(ds[|ds| - 1])
  }

  /** The unsigned part of `parseInt`: a `0x` or `0X` prefix selects base 16,
      base 10 is used otherwise, and the longest run of digits is read;
      `None` when there is no digit. */
  function ParseUnsigned(u: string): Option<int>
  {
    var hex := |u| >= 2 && u[0] == '0' && (u[1] == 'x' || u[1] == 'X');
    var radix := if hex then 16 else 10;
    var v := if hex then u[2..] else u;
    var n := DigitRun(v, radix);
    if n == 0 then None else Some(DigitsValue(v[..n], radix))
  }

  /** `parseInt(s)` with no radix (section 19.2.5 of ECMA-262): leading white
      space is skipped, one `+` or `-` sign is read, then the unsigned part;
      anything after the digits is ignored. `None` is NaN, which the insert
      sends as null. */
  function ParseInt(s: string): (r: Option<int>)
    ensures TrimStart(s) == [] ==> r.None?
    ensures var t := TrimStart(s);
      t != [] && IsDigitIn(t[0], 10) && !(|t| >= 2 && t[0] == '0' && (t[1] == 'x' || t[1] == 'X')) ==> r.Some?
    ensures var t := TrimStart(s);
      t != [] && !IsDigitIn(t[0], 10) && t[0] != '-' && t[0] != '+' ==> r.None?
  {
    var t := TrimStart(s);
    if t != [] && t[0] == '-' then
      match ParseUnsigned(t[1..])
      case None => None
      case Some(m) => Some(-m)
    else if t != [] && t[0] == '+' then ParseUnsigned(t[1..])
    else ParseUnsigned(t)
  }

  /** The decimal digits of `n`, most significant first, without leading zeros. */
  function NatString(n: nat): (s: string)
    ensures |s| > 0
    ensures forall i :: 0 <= i < |s| ==> IsDigitIn(s[i], 10)
    ensures n > 0 ==> s[0] != '0'
  {
    if n < 10 then [('0' as int + n) as char] else NatString(n / 10) + [('0' as int + n % 10) as char]
  }

  /** How the integer `n` is written in decimal, with `-` for a negative value. */
  function DecimalString(n: int): string
  {
    if n < 0 then "-" + NatString(-n) else NatString(n)
  }

  /** Reading back the decimal digits of `n` gives `n`. */
  lemma {:induction false} NatStringValue(n: nat)
    ensures DigitsValue(NatString(n), 10) == n
  {
    var s := NatString(n);
    if n >= 10 {
      NatStringValue(n / 10);
      assert s[..|s| - 1] == NatString(n / 10);
    }
  }

  /** The unsigned part reads back the decimal digits of `m` when what follows
      cannot extend them. */
  lemma ParseUnsignedDigits(m: nat, rest: string)
    requires rest == [] || (!IsDigitIn(rest[0], 10) && rest[0] != 'x' && rest[0] != 'X')
    ensures ParseUnsigned(NatString(m) + rest) == Some(m)
  {
    var digits := NatString(m);
    var u := digits + rest;
    assert u[0] == digits[0];
    assert !(|u| >= 2 && u[0] == '0' && (u[1] == 'x' || u[1] == 'X')) by {
      if m == 0 && |u| >= 2 {
        assert |digits| == 1;
        assert u[1] == rest[0];
      }
    }
    DigitRunOfDigits(digits, rest, 10);
    assert u[..|digits|] == digits;
    NatStringValue(m);
  }

  /** `parseInt` reads back any integer written in decimal, whatever text
      follows it, as long as that text does not continue the number (a digit)
      or, after a lone `0`, turn it into a hexadecimal prefix. */
  lemma ParseIntDecimal(n: int, rest: string)
    requires rest == [] || (!IsDigitIn(rest[0], 10) && rest[0] != 'x' && rest[0] != 'X')
    ensures ParseInt(DecimalString(n) + rest) == Some(n)
  {
    if n < 0 {
      var m: nat := -n;
      calc {
        DecimalString(n) + rest;
        "-" + NatString(m) + rest;
        ['-'] + (NatString(m) + rest);
      }
      ParseIntSigned(m, rest);
    } else {
      ParseIntUnsigned(n, rest);
    }
  }

  lemma ParseIntUnsigned(m: nat, rest: string)
    requires rest == [] || (!IsDigitIn(rest[0], 10) && rest[0] != 'x' && rest[0] != 'X')
    ensures ParseInt(NatString(m) + rest) == Some(m)
  {
    var s := NatString(m) + rest;
    assert s[0] == NatString(m)[0];
    ParseIntNoSign(s);
    ParseUnsignedDigits(m, rest);
  }

  lemma ParseIntSigned(m: nat, rest: string)
    requires rest == [] || (!IsDigitIn(rest[0], 10) && rest[0] != 'x' && rest[0] != 'X')
    ensures ParseInt(['-'] + (NatString(m) + rest)) == Some(-(m as int))
  {
    var s := ['-'] + (NatString(m) + rest);
    ParseIntMinus(s);
    assert s[1..] == NatString(m) + rest;
    ParseUnsignedDigits(m, rest);
  }

  /** Without white space or a sign in front, `parseInt` is its unsigned part. */
  lemma ParseIntNoSign(s: string)
    requires s != [] && IsDigitIn(s[0], 10)
    ensures ParseInt(s) == ParseUnsigned(s)
  {
    TrimStartNoSpace(s);
  }

  /** A leading `-` negates the unsigned part that follows it. */
  lemma ParseIntMinus(s: string)
    requires s != [] && s[0] == '-'
    ensures ParseInt(s) == (match ParseUnsigned(s[1..]) case None => None case Some(m) => Some(-m))
  {
    TrimStartNoSpace(s);
  }

  /** The digit run of a string of digits followed by a non-digit stops at the digits' end. */
  lemma {:induction false} DigitRunOfDigits(digits: string, rest: string, radix: nat)
    requires forall i :: 0 <= i < |digits| ==> IsDigitIn(digits[i], radix)
    requires rest == [] || !IsDigitIn(rest[0], radix)
    ensures DigitRun(digits + rest, radix) == |digits|
  {
    if digits != [] {
      assert (digits + rest)[1..] == digits[1..] + rest;
      DigitRunOfDigits(digits[1..], rest, radix);
    } else {
      assert digits + rest == rest;
    }
  }

  /** An empty or blank price field reads as NaN. */
  lemma ParseIntBlank(s: string)
    requires forall i :: 0 <= i < |s| ==> IsSpace(s[i])
    ensures ParseInt(s) == None
  {
    assert TrimStart(s) == [];
  }

  // ---------------------------------------------------------------- the form

  /** The form fields as the page holds them (text inputs are strings). */
  datatype Form = Form(
    kind: Kind,
    eventId: string,
    distance: string,
    meetup: string,
    note: string,
    priceMode: PriceMode,
    askingPrice: string,
    minPrice: string,
    bibChecked: bool,
    bibGender: string,
    shirtChecked: bool,
    shirtSize: string,
    finisherChecked: bool,
    finisherSize: string,
    medalChecked: bool)

  /** The form when the page opens: selling, open price, bib checked with the male gender. */
  const InitialForm: Form := Form(Sell, "", "", "", "", Open, "", "", true, "ชาย", false, "", false, "", false)

  /** Choosing an event: the event changes and the chosen distance is cleared,
      since the distances on offer belong to the event. */
  function WithEvent(form: Form, eventId: string): (f: Form)
    ensures f.eventId == eventId && f.distance == ""
    ensures f.(eventId := form.eventId, distance := form.distance) == form
  {
    form.(eventId := eventId, distance := "")
  }

  /** The message shown when a required field is empty. */
  const MissingFieldsMessage: string := "กรุณากรอกข้อมูลให้ครบ: งานวิ่ง, ระยะทาง, ราคา"

  /** The first check of `handleSubmit`: event, distance and asking price are required. */
  predicate MissingRequired(form: Form)
  {
    form.eventId == "" || form.distance == "" || form.askingPrice == ""
  }

  /** After choosing an event, the form cannot be submitted until a distance is chosen again. */
  lemma NewEventNeedsDistance(form: Form, eventId: string)
    ensures MissingRequired(WithEvent(form, eventId))
  {
  }

  /** The row sent to the `listings` table. */
  datatype ListingInsert = ListingInsert(
    userId: string,
    eventId: string,
    kind: Kind,
    distance: string,
    includesBib: bool,
    bibGender: Option<string>,
    includesShirt: bool,
    shirtSize: Option<string>,
    includesFinisherShirt: bool,
    finisherShirtSize: Option<string>,
    includesMedal: bool,
    priceMode: PriceMode,
    askingPrice: Option<int>,
    minPrice: Option<int>,
    meetupLocation: Option<string>,
    note: Option<string>,
    status: Status)

  /** `value || null` for a text field. */
  function NullIfEmpty(s: string): (r: Option<string>)
    ensures r.None? <==> s == ""
    ensures r.Some? ==> r.value == s
  {
    if s == "" then None else Some(s)
  }

  /** The inserted record for the signed-in user `userId`. */
  function BuildInsert(form: Form, userId: string): (r: ListingInsert)
    ensures r.userId == userId && r.eventId == form.eventId && r.kind == form.kind && r.distance == form.distance
    ensures r.status == Waiting
    ensures r.askingPrice == ParseInt(form.askingPrice)
    ensures r.includesBib == form.bibChecked && r.includesShirt == form.shirtChecked
    ensures r.includesFinisherShirt == form.finisherChecked && r.includesMedal == form.medalChecked
    ensures r.bibGender.None? <==> !form.bibChecked
    ensures r.shirtSize.None? <==> !form.shirtChecked
    ensures r.finisherShirtSize.None? <==> !form.finisherChecked
    ensures r.bibGender.Some? ==> r.bibGender.value == form.bibGender
    ensures r.shirtSize.Some? ==> r.shirtSize.value == form.shirtSize
    ensures r.finisherShirtSize.Some? ==> r.finisherShirtSize.value == form.finisherSize
    ensures r.priceMode == form.priceMode
    ensures r.minPrice.Some? ==> form.priceMode == Hidden && form.minPrice != ""
    ensures form.priceMode == Hidden && form.minPrice != "" ==> r.minPrice == ParseInt(form.minPrice)
    ensures r.meetupLocation.None? <==> form.meetup == ""
    ensures r.note.None? <==> form.note == ""
    ensures r.meetupLocation.Some? ==> r.meetupLocation.value == form.meetup
    ensures r.note.Some? ==> r.note.value == form.note
  {
    ListingInsert(
      userId, form.eventId, form.kind, form.distance,
      form.bibChecked, if form.bibChecked then Some(form.bibGender) else None,
      form.shirtChecked, if form.shirtChecked then Some(form.shirtSize) else None,
      form.finisherChecked, if form.finisherChecked then Some(form.finisherSize) else None,
      form.medalChecked, form.priceMode,
      ParseInt(form.askingPrice),
      if form.priceMode == Hidden && form.minPrice != "" then ParseInt(form.minPrice) else None,
      NullIfEmpty(form.meetup), NullIfEmpty(form.note),
      Waiting)
  }

  /** A price typed as a plain decimal number is stored as that number. */
  lemma TypedPriceStored(form: Form, userId: string, price: nat)
    requires form.askingPrice == DecimalString(price)
    ensures BuildInsert(form, userId).askingPrice == Some(price)
  {
    ParseIntDecimal(price, "");
    assert DecimalString(price) + "" == DecimalString(price);
  }

  // ---------------------------------------------------------------- the page

  /** How a call of `handleSubmit` ended. */
  datatype SubmitOutcome = MissingFields | NotSignedIn | InsertFailed(message: string) | Created

  const LoginRedirect: string := "/login?redirect=/create"
  const AfterCreate: string := "/search"

  /** The page state `handleSubmit` changes, and the effects it has:
      navigations pushed on the router, rows sent to the `listings` table, and
      the navigation scheduled after success. */
  class CreatePage {
    var form: Form
    var loading: bool
    var error: string
    var success: bool
    var navigations: seq<string>
    var inserts: seq<ListingInsert>
    var scheduled: Option<string>

    constructor()
      ensures form == InitialForm && !loading && error == "" && !success
      ensures navigations == [] && inserts == [] && scheduled == None
    {
      form := InitialForm;
      loading := false;
      error := "";
      success := false;
      navigations := [];
      inserts := [];
      scheduled := None;
    }

    /** The event drop-down's change handler. */
    method SelectEvent(eventId: string)
      modifies this
      ensures form == WithEvent(old(form), eventId)
      ensures loading == old(loading) && error == old(error) && success == old(success)
      ensures navigations == old(navigations) && inserts == old(inserts) && scheduled == old(scheduled)
    {
      form := WithEvent(form, eventId);
    }

    /** `handleSubmit`. `user` is what the authentication call returns and
        `insertError` what the insert returns; both are external. */
    method HandleSubmit(user: Option<string>, insertError: Option<string>) returns (outcome: SubmitOutcome)
      modifies this
      ensures form == old(form)
      ensures outcome == MissingFields <==> MissingRequired(old(form))
      ensures outcome == NotSignedIn <==> !MissingRequired(old(form)) && user.None?
      ensures outcome == MissingFields ==>
                error == MissingFieldsMessage && loading == old(loading) && success == old(success)
                && navigations == old(navigations) && inserts == old(inserts) && scheduled == old(scheduled)
      ensures outcome == NotSignedIn ==>
                loading && error == "" && success == old(success)
                && navigations == old(navigations) + [LoginRedirect] && inserts == old(inserts)
                && scheduled == old(scheduled)
      ensures outcome.InsertFailed? || outcome == Created ==>
                user.Some? && inserts == old(inserts) + [BuildInsert(old(form), user.value)]
                && !loading && navigations == old(navigations)
      ensures outcome.InsertFailed? <==> !MissingRequired(old(form)) && user.Some? && insertError.Some?
      ensures outcome.InsertFailed? ==>
                error == insertError.value && success == old(success) && scheduled == old(scheduled)
      ensures outcome == Created ==> error == "" && success && scheduled == Some(AfterCreate)
    {
      if MissingRequired(form) {
        error := MissingFieldsMessage;
        return MissingFields;
      }
      loading := true;
      error := "";
      if user.None? {
        navigations := navigations + [LoginRedirect];
        return NotSignedIn;
      }
      inserts := inserts + [BuildInsert(form, user.value)];
      loading := false;
      if insertError.Some? {
        error := insertError.value;
        return InsertFailed(insertError.value);
      }
      success := true;
      scheduled := Some(AfterCreate);
      outcome := Created;
    }
  }
}
