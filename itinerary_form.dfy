/**
 * The "Create new itinerary" bottom sheet (nomad/components/AddItineraryBottomSheet.tsx):
 * the text fields the user fills in, the rule that enables its add button and
 * handleAdd, which checks the fields in a fixed order and either shows one
 * error message or hands the new itinerary to `onAdd` and clears the form.
 */
module ItineraryForm {
  import opened JsText
  import opened Wrappers

  /** A JavaScript number as far as the form uses one: NaN or a finite value. */
  datatype JsNumber = NaN | Num(value: real)

  /** The arguments handleAdd passes to `onAdd`. */
  datatype NewItinerary = NewItinerary(name: string, days: real, list: string)

  datatype Verdict = Accept(itinerary: NewItinerary) | Reject(message: string)

  const NameMessage := "Please enter a name."
  const ListMessage := "Please choose a list."
  const DaysMessage := "Please enter a valid number of days."

  /** The `maxLength` of the days field. */
  const DaysMaxLength := 2

  predicate IsDigit(c: char) {
    '0' <= c <= '9'
  }

  predicate AllDigits(s: string) {
    forall k :: 0 <= k < |s| ==> IsDigit(s[k])
  }

  /** The value of a string of decimal digits. */
  function DigitsValue(s: string): nat
    requires AllDigits(s)
  {
    if s == [] then 0
    else DigitsValue(s[..|s| - 1]) * 10 + (s[|s| - 1] as int - '0' as int)
  }

  function Pow10(n: nat): (r: nat)
    ensures r >= 1
  {
    if n == 0 then 1 else 10 * Pow10(n - 1)
  }

  /** The index of the first '.' at or after `i`, or |s| when there is none. */
  function DotIndex(s: string, i: nat): (r: nat)
    requires i <= |s|
    ensures i <= r <= |s|
    ensures forall k :: i <= k < r ==> s[k] != '.'
    ensures r < |s| ==> s[r] == '.'
    decreases |s| - i
  {
    if i == |s| || s[i] == '.' then i else DotIndex(s, i + 1)
  }

  /** An unsigned decimal literal without exponent: digits, optionally followed
      by '.' and more digits, or '.' followed by digits; at least one digit. */
  function UnsignedDecimal(s: string): (r: JsNumber)
    ensures r.Num? ==> r.value >= 0.0
  {
    var dot := DotIndex(s, 0);
    var whole := s[..dot];
    var fraction := if dot < |s| then s[dot + 1..] else "";
    if AllDigits(whole) && AllDigits(fraction) && |whole| + |fraction| > 0 then
      Num(DigitsValue(whole) as real + DigitsValue(fraction) as real / Pow10(|fraction|) as real)
    else NaN
  }

  /** Number(s) for a string: white space around it is ignored, the empty
      string is 0, and an optional sign may precede the decimal literal. */
  function ToNumber(s: string): (r: JsNumber)
    ensures AllWhitespace(s) ==> r == Num(0.0)
    ensures r.Num? && r.value < 0.0 ==> Trim(s)[0] == '-'
  {
    var t := Trim(s);
    if t == "" then Num(0.0)
    else if t[0] == '+' then UnsignedDecimal(t[1..])
    else if t[0] == '-' then
      match UnsignedDecimal(t[1..])
      case NaN => NaN
      case Num(v) => Num(-v)
    else UnsignedDecimal(t)
  }

  /** What handleAdd decides for the given field values: the name is checked
      first, then the list, then the number of days. */
  function Validate(name: string, days: string, list: string): (r: Verdict)
    ensures r.Reject? ==> r.message in [NameMessage, ListMessage, DaysMessage]
    ensures r.Accept? ==> r.itinerary.days >= 1.0 && r.itinerary.name != "" && r.itinerary.list != ""
  {
    if Trim(name) == "" then Reject(NameMessage)
    else if Trim(list) == "" then Reject(ListMessage)
    else if Trim(days) == "" || ToNumber(days).NaN? || ToNumber(days).value < 1.0 then Reject(DaysMessage)
    else Accept(NewItinerary(Trim(name), ToNumber(days).value, Trim(list)))
  }

  /** The add button is enabled when no field is empty (before trimming). */
  predicate AddEnabled(name: string, days: string, list: string) {
    name != "" && days != "" && list != ""
  }

  class AddItineraryForm {
    var name: string
    var days: string
    var list: string
    var error: string

    /** The days field never holds more than DaysMaxLength characters. */
    ghost predicate Valid()
      reads this
    {
      |days| <= DaysMaxLength
    }

    constructor ()
      ensures Valid()
      ensures name == "" && days == "" && list == "" && error == ""
    {
      name, days, list, error := "", "", "", "";
    }

    /** Typing into the name field. */
    method EditName(text: string)
      modifies this
      ensures name == text && days == old(days) && list == old(list) && error == old(error)
    {
      name := text;
    }

    /** Typing into the days field, which keeps at most DaysMaxLength characters. */
    method EditDays(text: string)
      modifies this
      ensures Valid()
      ensures days == (if |text| <= DaysMaxLength then text else text[..DaysMaxLength])
      ensures name == old(name) && list == old(list) && error == old(error)
    {
      days := if |text| <= DaysMaxLength then text else text[..DaysMaxLength];
    }

    /** Picking a list from the dropdown. */
    method ChooseList(item: string)
      modifies this
      ensures list == item && name == old(name) && days == old(days) && error == old(error)
    {
      list := item;
    }

    /** handleAdd. On a failed check only `error` changes; on success `error`
        and the three fields are cleared and `added` holds what `onAdd` gets. */
    method HandleAdd() returns (added: Option<NewItinerary>)
      requires Valid()
      modifies this
      ensures Valid()
      ensures match Validate(old(name), old(days), old(list))
        case Reject(m) =>
          error == m && added == None
          && name == old(name) && days == old(days) && list == old(list)
        case Accept(v) =>
          error == "" && added == Some(v)
          && name == "" && days == "" && list == ""
    {
      if Trim(name) == "" {
        error := NameMessage;
        return None;
      }
      if Trim(list) == "" {
        error := ListMessage;
        return None;
      }
      var n := ToNumber(days);
      if Trim(days) == "" || n.NaN? || n.value < 1.0 {
        error := DaysMessage;
        return None;
      }
      error := "";
      added := Some(NewItinerary(Trim(name), n.value, Trim(list)));
      name := "";
      days := "";
      list := "";
    }
  }

  /** The button rule never hides a valid form: whatever handleAdd accepts has
      all three fields non-empty. */
  lemma AcceptedMeansEnabled(name: string, days: string, list: string)
    ensures Validate(name, days, list).Accept? ==> AddEnabled(name, days, list)
  {
  }

  /** The converse fails: the button tests the untrimmed fields, so a name of
      white space enables it and handleAdd then refuses the name. */
  lemma EnabledButRejected()
    ensures AddEnabled(" ", "5", "Paris")
    ensures Validate(" ", "5", "Paris") == Reject(NameMessage)
  {
    assert AllWhitespace(" ");
  }

  /** The error handleAdd shows is the message of the first failing check in
      the order name, list, days; a form passing all three is accepted. */
  lemma FirstFailingCheckReported(name: string, days: string, list: string)
    ensures Validate(name, days, list) == Reject(NameMessage) <==> AllWhitespace(name)
    ensures Validate(name, days, list) == Reject(ListMessage)
      <==> !AllWhitespace(name) && AllWhitespace(list)
    ensures Validate(name, days, list) == Reject(DaysMessage)
      <==> !AllWhitespace(name) && !AllWhitespace(list)
           && (AllWhitespace(days) || ToNumber(days).NaN? || ToNumber(days).value < 1.0)
    ensures Validate(name, days, list).Accept?
      <==> !AllWhitespace(name) && !AllWhitespace(list)
           && !AllWhitespace(days) && ToNumber(days).Num? && ToNumber(days).value >= 1.0
  {
  }

  /** What handleAdd accepts is trimmed: the name and list passed on do not
      start or end with white space and are not empty. */
  lemma AcceptedValuesAreTrimmed(name: string, days: string, list: string)
    requires Validate(name, days, list).Accept?
    ensures var v := Validate(name, days, list).itinerary;
      v.name != "" && v.list != "" && Trim(v.name) == v.name && Trim(v.list) == v.list
  {
    TrimIdempotent(name);
    TrimIdempotent(list);
  }

  /** Only the trimmed fields matter: white space around any field never
      changes handleAdd's decision. */
  lemma ValidateSeesOnlyTrimmedFields(name: string, days: string, list: string)
    ensures Validate(name, days, list) == Validate(Trim(name), Trim(days), Trim(list))
  {
    TrimIdempotent(name);
    TrimIdempotent(list);
    NumberOfTrimmed(days);
  }

  /** Number ignores white space around its argument. */
  lemma NumberOfTrimmed(days: string)
    ensures Trim(Trim(days)) == Trim(days)
    ensures ToNumber(Trim(days)) == ToNumber(days)
  {
    TrimIdempotent(days);
  }

  lemma {:induction false} DigitsValueBound(s: string)
    requires AllDigits(s)
    ensures DigitsValue(s) < Pow10(|s|)
  {
    if s != [] {
      DigitsValueBound(s[..|s| - 1]);
    }
  }

  /** A decimal literal of at most two characters is below 1 or a whole number
      of at most 99: a fraction digit leaves no room for a whole part. */
  lemma ShortDecimal(t: string)
    requires |t| <= DaysMaxLength && UnsignedDecimal(t).Num?
    ensures var v := UnsignedDecimal(t).value;
      0.0 <= v && (v < 1.0 || (v == v.Floor as real && v <= 99.0))
  {
    var dot := DotIndex(t, 0);
    var whole := t[..dot];
    var fraction := if dot < |t| then t[dot + 1..] else "";
    DigitsValueBound(whole);
    DigitsValueBound(fraction);
    if |fraction| > 0 {
      assert whole == "";
    }
  }

  /** Number(days) for a field of at most two characters, when it is a number
      at all, is below 1 or a whole number of at most 99. */
  lemma ShortNumber(days: string)
    requires |days| <= DaysMaxLength && ToNumber(days).Num?
    ensures var v := ToNumber(days).value; v < 1.0 || (v == v.Floor as real && v <= 99.0)
  {
    var t := Trim(days);
    if t != "" {
      if t[0] == '+' || t[0] == '-' {
        if UnsignedDecimal(t[1..]).Num? {
          ShortDecimal(t[1..]);
        }
      } else {
        ShortDecimal(t);
      }
    }
  }

  /** Because the days field holds at most two characters, the number of days
      handleAdd passes on is a whole number from 1 to 99. */
  lemma AcceptedDaysAreWhole(name: string, days: string, list: string)
    requires |days| <= DaysMaxLength && Validate(name, days, list).Accept?
    ensures var d := Validate(name, days, list).itinerary.days;
      d == d.Floor as real && 1.0 <= d <= 99.0
  {
    ShortNumber(days);
  }

  /** A digit-only days field is accepted exactly when its value is at least 1,
      and that value is what handleAdd passes on. */
  lemma DigitDaysAccepted(name: string, days: string, list: string)
    requires !AllWhitespace(name) && !AllWhitespace(list)
    requires days != "" && AllDigits(days)
    ensures Validate(name, days, list)
      == if DigitsValue(days) >= 1
         then Accept(NewItinerary(Trim(name), DigitsValue(days) as real, Trim(list)))
         else Reject(DaysMessage)
  {
    DigitsAreTheirNumber(days);
  }

  /** Number of a non-empty digit string is the digits' value. */
  lemma DigitsAreTheirNumber(days: string)
    requires days != "" && AllDigits(days)
    ensures Trim(days) == days
    ensures ToNumber(days) == Num(DigitsValue(days) as real)
  {
    TrimLeavesTrimmed(days);
    assert days[0] != '+' && days[0] != '-';
    DigitsAreDecimal(days);
  }

  lemma DigitsAreDecimal(s: string)
    requires s != "" && AllDigits(s)
    ensures UnsignedDecimal(s) == Num(DigitsValue(s) as real)
  {
    NoDotInDigits(s, 0);
    assert s[..|s|] == s;
  }

  lemma {:induction false} NoDotInDigits(s: string, i: nat)
    requires i <= |s| && AllDigits(s)
    ensures DotIndex(s, i) == |s|
    decreases |s| - i
  {
    if i < |s| {
      assert IsDigit(s[i]);
      NoDotInDigits(s, i + 1);
    }
  }
}
