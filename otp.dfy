/**
 * The one-time-password entry form: five single-character slots, the
 * accept-one-digit change handler, comparison with the expected code once
 * every slot is filled, and the Backspace rules.
 */
module OtpEntry {
  import opened Text
  import opened Optional
  import opened Display

  const SlotCount: nat := 5

  /** `/^[0-9]?$/`: the empty string or one ASCII digit. */
  predicate IsSlotEntry(v: string) {
    v == [] || (|v| == 1 && IsDigit(v[0]))
  }

  /** `every((digit) => digit !== '')` */
  predicate Filled(slots: seq<string>) {
    forall i :: 0 <= i < |slots| ==> slots[i] != ""
  }

  /** `join('')` */
  function Joined(slots: seq<string>): string {
    if slots == [] then "" else slots[0] + Joined(slots[1..])
  }

  /** Filled one-digit slots join to a digit string with one digit per slot, in order. */
  lemma {:induction false} JoinedDigits(slots: seq<string>)
    requires forall i :: 0 <= i < |slots| ==> IsSlotEntry(slots[i])
    requires Filled(slots)
    ensures |Joined(slots)| == |slots|
    ensures forall i :: 0 <= i < |slots| ==> Joined(slots)[i] == slots[i][0]
    ensures AllDigits(Joined(slots))
  {
    if slots != [] {
      assert forall i :: 0 <= i < |slots[1..]| ==> slots[1..][i] == slots[i + 1];
      JoinedDigits(slots[1..]);
      assert |slots[0]| == 1;
    }
  }

  /** The entered code can only match an expected code of exactly five digits. */
  lemma MatchNeedsFiveDigits(slots: seq<string>, otp: string)
    requires |slots| == SlotCount
    requires forall i :: 0 <= i < |slots| ==> IsSlotEntry(slots[i])
    requires Filled(slots)
    ensures Joined(slots) == otp ==> |otp| == 5 && AllDigits(otp)
  {
    JoinedDigits(slots);
  }

  lemma SingleDigit(v: string)
    requires IsSlotEntry(v) && v != ""
    ensures v == [v[0]]
  {
  }

  /** Two filled slot buffers that join to the same code hold the same digits. */
  lemma JoinedInjective(s: seq<string>, t: seq<string>)
    requires |s| == |t|
    requires forall i :: 0 <= i < |s| ==> IsSlotEntry(s[i]) && IsSlotEntry(t[i])
    requires Filled(s) && Filled(t)
    ensures Joined(s) == Joined(t) ==> s == t
  {
    JoinedDigits(s);
    JoinedDigits(t);
    if Joined(s) == Joined(t) {
      forall i | 0 <= i < |s| ensures s[i] == t[i] {
        SingleDigit(s[i]);
        SingleDigit(t[i]);
      }
    }
  }

  /** The toast shown when a complete code does not match. */
  const MismatchNotice := Notice("OTP does not match. Try again.", true)

  /** The toast shown when the page is opened without `temp_id` or `otp`. */
  const UnauthorizedNotice := Notice("Unauthorized access. Redirecting to signup.", true)

  class OtpForm {
    /** The `enteredOtp` buffer. */
    const slots: array<string>
    /** None before any comparison, then whether the last complete code matched. */
    var isValid: Option<bool>
    /** Both `temp_id` and `otp` arrived with the navigation state. */
    const authorized: bool
    /** The expected code (`otp`); empty when none arrived. */
    const expected: string
    /** The toast the authorization check shows when the page opens. */
    const notice: Option<Notice>
    /** The slot focused when the page opens. */
    const initialFocus: Option<nat>

    ghost predicate Valid()
      reads this, slots
    {
      slots.Length == SlotCount && forall i :: 0 <= i < slots.Length ==> IsSlotEntry(slots[i])
    }

    constructor (tempId: Option<string>, otp: Option<string>)
      ensures Valid() && fresh(slots)
      ensures slots[..] == ["", "", "", "", ""]
      ensures isValid == None
      ensures authorized <==> Truthy(tempId) && Truthy(otp)
      ensures expected == otp.GetOr("")
      ensures notice == if authorized then None else Some(UnauthorizedNotice)
      ensures initialFocus == if authorized then Some(0) else None
    {
      slots := new string[SlotCount](_ => "");
      isValid := None;
      var ok := Truthy(tempId) && Truthy(otp);
      authorized := ok;
      expected := otp.GetOr("");
      notice := if ok then None else Some(UnauthorizedNotice);
      initialFocus := if ok then Some(0) else None;
    }

    /**
     * `handleChange`: when authorized and given an empty or one-digit value,
     * writes that slot only, moves the focus on after a digit unless on the
     * last slot, and, once all slots are filled, records whether the code
     * matches and asks for verification exactly when it does, or shows the
     * mismatch notice when it does not. Anything else changes nothing.
     */
    method HandleChange(index: nat, value: string) returns (focusNext: Option<nat>, verify: bool, notice: Option<Notice>)
      requires Valid() && index < SlotCount
      modifies this, slots
      ensures Valid()
      ensures !authorized || !IsSlotEntry(value) ==>
        slots[..] == old(slots[..]) && isValid == old(isValid) && focusNext == None && !verify
      ensures authorized && IsSlotEntry(value) ==> slots[..] == old(slots[..])[index := value]
      ensures focusNext.Some? <==> authorized && IsSlotEntry(value) && value != "" && index < SlotCount - 1
      ensures focusNext.Some? ==> focusNext.value == index + 1
      ensures authorized && IsSlotEntry(value) && Filled(slots[..]) ==>
        isValid == Some(Joined(slots[..]) == expected) && (verify <==> Joined(slots[..]) == expected)
      ensures !Filled(slots[..]) ==> isValid == old(isValid) && !verify
      ensures notice == if authorized && IsSlotEntry(value) && Filled(slots[..]) && Joined(slots[..]) != expected
        then Some(MismatchNotice) else None
    {
      focusNext, verify, notice := None, false, None;
      if !authorized || !IsSlotEntry(value) {
        return;
      }
      slots[index] := value;
      if value != "" && index < SlotCount - 1 {
        focusNext := Some(index + 1);
      }
      if Filled(slots[..]) {
        var enteredCode := Joined(slots[..]);
        if enteredCode == expected {
          isValid := Some(true);
          verify := true;
        } else {
          isValid := Some(false);
          notice := Some(MismatchNotice);
        }
      }
    }

    /**
     * The Backspace key handler: a non-empty slot is cleared; on an empty
     * slot the previous one is cleared and focused; on an empty first slot
     * nothing happens.
     */
    method Backspace(index: nat) returns (focusPrev: Option<nat>)
      requires Valid() && index < SlotCount
      modifies slots
      ensures Valid()
      ensures old(slots[index]) != "" ==> slots[..] == old(slots[..])[index := ""] && focusPrev == None
      ensures old(slots[index]) == "" && index > 0 ==>
        slots[..] == old(slots[..])[index - 1 := ""] && focusPrev == Some(index - 1)
      ensures old(slots[index]) == "" && index == 0 ==> slots[..] == old(slots[..]) && focusPrev == None
    {
      focusPrev := None;
      if slots[index] == "" {
        if index > 0 {
          focusPrev := Some(index - 1);
          slots[index - 1] := "";
        }
      } else {
        slots[index] := "";
      }
    }
  }

  /**
   * A scenario: on a fresh form expecting "12345", a digit moves the focus
   * on, a letter is ignored, and Backspace on an empty slot clears the one
   * before it.
   */
  method OtpTypingScenario()
  {
    var form := new OtpForm(Some("t-1"), Some("12345"));
    assert form.notice == None && form.initialFocus == Some(0);
    var focus, verify, notice := form.HandleChange(0, "1");
    assert form.slots[..] == ["1", "", "", "", ""];
    assert focus == Some(1) && !verify;
    focus, verify, notice := form.HandleChange(1, "x");
    assert form.slots[..] == ["1", "", "", "", ""] && focus == None;
    var back := form.Backspace(1);
    assert form.slots[..] == ["", "", "", "", ""] && back == Some(0);
  }

  /**
   * A scenario: with "1234" entered, typing 5 in the last slot completes the
   * expected code, marks it valid and asks for verification without moving
   * the focus; a wrong last digit marks it invalid and shows the mismatch
   * notice instead.
   */
  method OtpCompletionScenario(form: OtpForm)
    requires form.Valid() && form.authorized && form.expected == "12345"
    requires form.slots[..] == ["1", "2", "3", "4", ""]
    modifies form, form.slots
  {
    var focus, verify, notice := form.HandleChange(4, "6");
    assert form.slots[..] == ["1", "2", "3", "4", "6"];
    JoinedDigits(form.slots[..]);
    assert Joined(form.slots[..])[4] == '6';
    assert !verify && form.isValid == Some(false) && notice == Some(MismatchNotice);
    focus, verify, notice := form.HandleChange(4, "5");
    assert form.slots[..] == ["1", "2", "3", "4", "5"];
    JoinedDigits(form.slots[..]);
    assert Joined(form.slots[..]) == "12345";
    assert verify && form.isValid == Some(true) && focus == None && notice == None;
  }
}
