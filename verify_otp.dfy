/** The one-time-code page (src/app/auth/verify-otp/page.tsx): six one-character
    inputs, a digit filter on each keystroke, focus moving to the next input, and
    the code submitted as the concatenation of the six. */
module VerifyOtp {
  import opened Wrappers
  import opened Text
  import opened Validation

  const SlotCount: nat := 6

  /** Where an issue is reported: one entry of the array, or the array itself. */
  datatype OtpField = Slot(index: nat) | WholeCode

  const Required: string := "Required"
  const OnlyOneDigit: string := "Only one digit"
  const WrongLength: string := "OTP must be 6 digits"

  /** `["", "", "", "", "", ""]`. */
  const DefaultOtp: seq<string> := ["", "", "", "", "", ""]

  /** What `min(1)` and `max(1)` together accept: a `length` of exactly one
      UTF-16 code unit, that is one character of the Basic Multilingual Plane. */
  predicate OneCodeUnit(entry: string) {
    |entry| == 1 && (entry[0] as int) < 0x1_0000
  }

  /** The per-entry issues of the entries from `from` on. */
  function EntryIssues(otp: seq<string>, from: nat): seq<Issue<OtpField>>
    requires from <= |otp|
    decreases |otp| - from
  {
    if from == |otp| then []
    else
      MinLength(Slot(from), otp[from], 1, Required)
      + MaxLength(Slot(from), otp[from], 1, OnlyOneDigit)
      + EntryIssues(otp, from + 1)
  }

  /** The issues `otpSchema` reports: the array's length check first, then the
      entry checks in order. The code is accepted exactly when there are six
      entries of one code unit each. */
  function Issues(otp: seq<string>): (r: seq<Issue<OtpField>>)
    ensures r == [] <==> |otp| == SlotCount && forall i :: 0 <= i < |otp| ==> OneCodeUnit(otp[i])
    ensures |otp| != SlotCount ==> r[0] == Issue(WholeCode, WrongLength)
  {
    EntryIssuesEmptyIff(otp, 0);
    (if |otp| != SlotCount then [Issue(WholeCode, WrongLength)] else [])
    + EntryIssues(otp, 0)
  }

  predicate Valid(otp: seq<string>) {
    Issues(otp) == []
  }

  lemma {:induction false} EntryIssuesEmptyIff(otp: seq<string>, from: nat)
    requires from <= |otp|
    ensures EntryIssues(otp, from) == [] <==> forall i :: from <= i < |otp| ==> OneCodeUnit(otp[i])
    decreases |otp| - from
  {
    if from < |otp| {
      EntryIssuesEmptyIff(otp, from + 1);
      Utf16LengthOne(otp[from]);
    }
  }

  /** The code is accepted exactly when there are six entries of one code unit each. */
  lemma ValidIff(otp: seq<string>)
    ensures Valid(otp) <==> |otp| == SlotCount && forall i :: 0 <= i < |otp| ==> OneCodeUnit(otp[i])
  {
    EntryIssuesEmptyIff(otp, 0);
  }

  /** The untouched form is rejected. */
  lemma DefaultInvalid()
    ensures !Valid(DefaultOtp)
  {
    ValidIff(DefaultOtp);
    assert |DefaultOtp[0]| == 0;
  }

  /** `otp.join("")`. */
  function Join(otp: seq<string>): (code: string)
    ensures (forall i :: 0 <= i < |otp| ==> |otp[i]| == 1) ==> |code| == |otp|
  {
    if otp == [] then "" else otp[0] + Join(otp[1..])
  }

  /** Joining one-character entries gives one character per entry, in order. */
  lemma {:induction false} JoinOfSingleChars(otp: seq<string>)
    requires forall i :: 0 <= i < |otp| ==> |otp[i]| == 1
    ensures |Join(otp)| == |otp|
    ensures forall i :: 0 <= i < |otp| ==> Join(otp)[i] == otp[i][0]
  {
    if otp != [] {
      JoinOfSingleChars(otp[1..]);
      forall i | 1 <= i < |otp| ensures Join(otp)[i] == otp[i][0] {
        assert otp[1..][i - 1] == otp[i];
      }
    }
  }

  /** A valid form submits a six-character code whose k-th character is the k-th entry. */
  lemma ValidCode(otp: seq<string>)
    requires Valid(otp)
    ensures |otp| == |Join(otp)| == SlotCount
    ensures forall i :: 0 <= i < |otp| ==> OneCodeUnit(otp[i]) && Join(otp)[i] == otp[i][0]
  {
    ValidIff(otp);
    JoinOfSingleChars(otp);
  }

  /** Six entries holding one digit each, as the digit filter leaves them, are accepted. */
  lemma SixDigitsValid(otp: seq<string>)
    requires |otp| == SlotCount
    requires forall i :: 0 <= i < |otp| ==> |otp[i]| == 1 && AllDigits(otp[i])
    ensures Valid(otp)
  {
    forall i | 0 <= i < |otp| ensures OneCodeUnit(otp[i]) {
      assert IsDigit(otp[i][0]);
    }
    ValidIff(otp);
  }

  /** Entries that went through the digit filter join into a string of digits. */
  lemma {:induction false} JoinOfDigits(otp: seq<string>)
    requires forall i :: 0 <= i < |otp| ==> AllDigits(otp[i])
    ensures AllDigits(Join(otp))
  {
    if otp != [] {
      JoinOfDigits(otp[1..]);
      var j := Join(otp);
      forall k | 0 <= k < |j| ensures IsDigit(j[k]) {
        if k < |otp[0]| { assert j[k] == otp[0][k]; }
        else { assert j[k] == Join(otp[1..])[k - |otp[0]|]; }
      }
    }
  }

  /** The input to focus after typing `value` into input `index`, if any: the next
      one, when something survived the filter and this is not the last input. */
  function FocusAfter(index: nat, value: string): (next: Option<nat>)
    ensures next.Some? <==> value != "" && index < SlotCount - 1
    ensures next.Some? ==> next.value == index + 1 && next.value < SlotCount
  {
    if value != "" && index < SlotCount - 1 then Some(index + 1) else None
  }

  /** The six inputs and which of them has the keyboard focus. */
  class OtpInputs {
    var slots: seq<string>
    var focused: Option<nat>

    ghost predicate Valid()
      reads this
    {
      && |slots| == SlotCount
      && (forall i :: 0 <= i < |slots| ==> |slots[i]| <= 1 && AllDigits(slots[i]))
      && (focused.Some? ==> focused.value < SlotCount)
    }

    constructor ()
      ensures Valid() && slots == DefaultOtp && focused == None
    {
      slots, focused := DefaultOtp, None;
    }

    /** An input's `onChange`: keep only the digits typed, store them in that
        input's slot, and move the focus on when the focus rule says so. The
        input's `maxLength={1}` means the browser hands over at most one UTF-16
        code unit, even when several characters are typed or pasted. */
    method OnChange(index: nat, typed: string)
      requires Valid() && index < |slots|
      requires Utf16Length(typed) <= 1
      modifies this
      ensures Valid()
      ensures slots == old(slots)[index := DigitsOnly(typed)]
      ensures AllDigits(slots[index]) && |slots[index]| <= 1
      ensures focused ==
        if FocusAfter(index, DigitsOnly(typed)).Some? then FocusAfter(index, DigitsOnly(typed))
        else Some(index)
    {
      // the input receiving the keystroke is the focused one
      focused := Some(index);
      var value := DigitsOnly(typed);
      slots := slots[index := value];
      var next := FocusAfter(index, value);
      if next.Some? {
        focused := next;
      }
    }

    /** The code `onSubmit` computes. */
    function Code(): string
      reads this
    {
      Join(slots)
    }

    /** The code is made of digits only, since every slot went through the
        filter, and it has six of them once the form is accepted. */
    lemma CodeIsDigits()
      requires Valid()
      ensures AllDigits(Code())
      ensures Issues(slots) == [] ==> |Code()| == SlotCount
    {
      JoinOfDigits(slots);
      if Issues(slots) == [] {
        ValidCode(slots);
      }
    }
  }

  /** Typing one character into an input fills its slot exactly when it is a digit. */
  lemma OneKeystroke(typed: char)
    ensures |DigitsOnly([typed])| == 1 <==> IsDigit(typed)
    ensures DigitsOnly([typed]) == [] <==> !IsDigit(typed)
  {
    DigitsOnlyOfOneChar(typed);
  }
}
