/**
 * The email-verification page: a six-cell digit buffer filled by keystrokes and paste,
 * the focus moves between cells, and the submit that requires every cell.
 */
module VerifyPage {
  import opened Wrappers
  import opened JsStrings
  import opened Api
  import opened Auth

  const CodeLength := 6
  const IncompleteMessage := "Please enter the full 6-digit code."
  const VerifyFallback := "Verification failed."
  const ResendFallback := "Failed to resend code."

  /** A cell holds nothing or one digit. */
  predicate IsCell(c: string) {
    |c| <= 1 && AllDigits(c)
  }

  predicate ValidCode(code: seq<string>) {
    |code| == CodeLength && forall i :: 0 <= i < |code| ==> IsCell(code[i])
  }

  /** `value.slice(-1)`: the last character, or nothing. */
  function LastChar(value: string): (r: string)
    ensures |r| <= 1 && (value == [] <==> r == [])
    ensures value != [] ==> r[0] == value[|value| - 1]
  {
    if value == [] then [] else [value[|value| - 1]]
  }

  /** `replace(/\D/g, "")`: the digits of `s`, in order. */
  function DigitsOf(s: string): (r: string)
    ensures AllDigits(r) && |r| <= |s|
    ensures forall c :: c in r <==> c in s && IsDigit(c)
    ensures |s| == 1 ==> r == (if IsDigit(s[0]) then s else [])
  {
    if s == [] then []
    else
      var rest := DigitsOf(s[1..]);
      assert forall c :: c in s <==> c == s[0] || c in s[1..];
      if IsDigit(s[0]) then [s[0]] + rest else rest
  }

  /**
   * The digits of a concatenation are the digits of each part, in order: with the
   * one-character case above, `DigitsOf` is the in-order digit subsequence.
   */
  lemma {:induction false} DigitsOfConcat(s1: string, s2: string)
    ensures DigitsOf(s1 + s2) == DigitsOf(s1) + DigitsOf(s2)
  {
    if s1 != [] {
      var s := s1 + s2;
      assert s[0] == s1[0] && s[1..] == s1[1..] + s2;
      DigitsOfConcat(s1[1..], s2);
      var head := if IsDigit(s1[0]) then [s1[0]] else [];
      assert DigitsOf(s) == head + DigitsOf(s[1..]);
      assert DigitsOf(s1) == head + DigitsOf(s1[1..]);
    } else {
      assert s1 + s2 == s2;
    }
  }

  /** A string of digits keeps all of them. */
  lemma {:induction false} DigitsOfDigits(s: string)
    requires AllDigits(s)
    ensures DigitsOf(s) == s
  {
    if s != [] {
      DigitsOfDigits(s[1..]);
    }
  }

  /** The pasted digits: at most the first six. */
  function Pasted(text: string): (r: string)
    ensures AllDigits(r) && |r| <= CodeLength
  {
    var d := DigitsOf(text);
    if |d| <= CodeLength then d else d[..CodeLength]
  }

  /** `pasted[i] || ""` */
  function PastedCell(pasted: string, i: nat): (c: string)
    requires AllDigits(pasted)
    ensures IsCell(c)
    ensures i < |pasted| ==> c == [pasted[i]]
    ensures i >= |pasted| ==> c == ""
  {
    if i < |pasted| then [pasted[i]] else ""
  }

  /** Where focus moves after a change in cell `index`: forward when a digit was typed before the last cell. */
  function FocusAfterChange(index: nat, value: string): (r: Option<nat>)
    ensures r.Some? <==> AllDigits(value) && value != "" && index < CodeLength - 1
    ensures r.Some? ==> r.value == index + 1
  {
    if AllDigits(value) && value != "" && index < CodeLength - 1 then Some(index + 1) else None
  }

  /** `handleKeyDown`: Backspace in an empty cell other than the first moves focus back. */
  function FocusAfterKeyDown(code: seq<string>, index: nat, key: string): (r: Option<nat>)
    requires index < |code|
    ensures r.Some? <==> key == "Backspace" && code[index] == "" && index > 0
    ensures r.Some? ==> r.value == index - 1
  {
    if key == "Backspace" && code[index] == "" && index > 0 then Some(index - 1) else None
  }

  /** `code.join("")` */
  function Joined(code: seq<string>): (r: string)
    ensures (forall i :: 0 <= i < |code| ==> AllDigits(code[i])) ==> AllDigits(r)
  {
    if code == [] then "" else code[0] + Joined(code[1..])
  }

  /** Joining cells of at most one character gives as many characters as there are filled cells. */
  lemma {:induction false} JoinedLength(code: seq<string>)
    requires forall i :: 0 <= i < |code| ==> |code[i]| <= 1
    ensures |Joined(code)| <= |code|
    ensures |Joined(code)| == |code| <==> forall i :: 0 <= i < |code| ==> code[i] != ""
  {
    if code != [] {
      JoinedLength(code[1..]);
      assert forall i :: 1 <= i < |code| ==> code[i] == code[1..][i - 1];
    }
  }

  /** The length check of `handleVerify` accepts exactly a code with every cell filled. */
  lemma FullCodeIffAllFilled(code: seq<string>)
    requires ValidCode(code)
    ensures |Joined(code)| == CodeLength <==> forall i :: 0 <= i < CodeLength ==> code[i] != ""
  {
    JoinedLength(code);
  }

  /** The body of `POST /api/auth/verify-email`. */
  datatype VerifyRequest = VerifyRequest(email: string, code: string)

  /** The body of a successful verification response. */
  datatype VerifyResponse = VerifyResponse(token: string, user: AuthUser, message: string)

  /** How `handleVerify` ends: refused locally, or the request sent and accepted or rejected. */
  datatype VerifyOutcome = Incomplete | Verified(sent: VerifyRequest) | Rejected(sent: VerifyRequest)

  /** `[...code]` */
  method CopyCells(code: seq<string>) returns (a: array<string>)
    ensures fresh(a) && a[..] == code
  {
    a := new string[|code|];
    for i := 0 to |code|
      invariant forall k :: 0 <= k < i ==> a[k] == code[k]
    {
      a[i] := code[i];
    }
  }

  class VerifyForm {
    /** `searchParams.get("email") || ""` */
    const email: string
    var code: seq<string>
    var error: string
    var loading: bool
    var resending: bool
    var resendSuccess: bool

    ghost predicate Valid()
      reads this
    {
      ValidCode(code)
    }

    constructor (emailParam: Option<string>)
      ensures Valid() && code == ["", "", "", "", "", ""]
      ensures email == (if Given(emailParam) then emailParam.value else "")
      ensures error == "" && !loading && !resending && !resendSuccess
    {
      email := if Given(emailParam) then emailParam.value else "";
      code := ["", "", "", "", "", ""];
      error := "";
      loading := false;
      resending := false;
      resendSuccess := false;
    }

    /** The page sends a visitor without an email back to sign-up. */
    function RedirectsToSignUp(): (r: bool)
      reads this
      ensures r <==> email == ""
    {
      email == ""
    }

    /** `handleChange(index, value)`: a value with a non-digit is ignored; otherwise cell `index` takes its last character. */
    method HandleChange(index: nat, value: string) returns (focus: Option<nat>)
      requires Valid() && index < CodeLength
      modifies this
      ensures Valid()
      ensures !AllDigits(value) ==> code == old(code)
      ensures AllDigits(value) ==> code == old(code)[index := LastChar(value)]
      ensures focus == FocusAfterChange(index, value)
      ensures error == old(error) && loading == old(loading)
      ensures resending == old(resending) && resendSuccess == old(resendSuccess)
    {
      if !AllDigits(value) {
        return None;
      }
      var newCode := CopyCells(code);
      newCode[index] := LastChar(value);
      code := newCode[..];
      if value != "" && index < CodeLength - 1 {
        focus := Some(index + 1);
      } else {
        focus := None;
      }
    }

    /** `handlePaste`: the cells take the pasted digits in order, the rest are emptied. */
    method HandlePaste(clipboard: string) returns (focus: nat)
      requires Valid()
      modifies this
      ensures Valid()
      ensures var pasted := Pasted(clipboard);
        && (forall i :: 0 <= i < CodeLength ==> code[i] == PastedCell(pasted, i))
        && focus == (if |pasted| < CodeLength - 1 then |pasted| else CodeLength - 1)
      ensures error == old(error) && loading == old(loading)
      ensures resending == old(resending) && resendSuccess == old(resendSuccess)
    {
      var pasted := Pasted(clipboard);
      var newCode := CopyCells(code);
      for i := 0 to CodeLength
        modifies newCode
        invariant newCode.Length == CodeLength
        invariant forall k :: 0 <= k < i ==> newCode[k] == PastedCell(pasted, k)
      {
        newCode[i] := if i < |pasted| then [pasted[i]] else "";
      }
      code := newCode[..];
      focus := if |pasted| < CodeLength - 1 then |pasted| else CodeLength - 1;
    }

    /**
     * `handleVerify`: refuses an incomplete code; otherwise posts it and, on success,
     * stores the returned token and user in the auth store.
     */
    method HandleVerify(auth: AuthStore, response: Result<VerifyResponse, Thrown>) returns (outcome: VerifyOutcome)
      requires Valid()
      modifies this, auth
      ensures Valid() && code == old(code)
      ensures resending == old(resending) && resendSuccess == old(resendSuccess)
      ensures (exists i :: 0 <= i < CodeLength && code[i] == "") ==>
                outcome == Incomplete && error == IncompleteMessage
                && loading == old(loading) && unchanged(auth)
      ensures (forall i :: 0 <= i < CodeLength ==> code[i] != "") ==> !loading
      ensures (forall i :: 0 <= i < CodeLength ==> code[i] != "") && response.Success? ==>
                outcome == Verified(VerifyRequest(email, Joined(code))) && error == ""
                && auth.storedToken == Some(response.value.token) && auth.user == Some(response.value.user)
                && auth.isLoading == old(auth.isLoading)
      ensures (forall i :: 0 <= i < CodeLength ==> code[i] != "") && response.Failure? ==>
                outcome == Rejected(VerifyRequest(email, Joined(code)))
                && error == MessageOf(response.error, VerifyFallback)
                && unchanged(auth)
    {
      FullCodeIffAllFilled(code);
      var fullCode := Joined(code);
      if |fullCode| != CodeLength {
        error := IncompleteMessage;
        return Incomplete;
      }
      error := "";
      loading := true;
      var request := VerifyRequest(email, fullCode);
      match response {
        case Success(body) =>
          auth.StoreToken(body.token);
          auth.SetUser(body.user);
          outcome := Verified(request);
        case Failure(e) =>
          error := MessageOf(e, VerifyFallback);
          outcome := Rejected(request);
      }
      loading := false;
    }

    /** `handleResend`: asks for a new code and reports success or the error message. */
    method HandleResend(response: Result<JsValue, Thrown>)
      requires Valid()
      modifies this
      ensures Valid() && code == old(code) && !resending && loading == old(loading)
      ensures resendSuccess <==> response.Success?
      ensures error == (if response.Failure? then MessageOf(response.error, ResendFallback) else "")
    {
      resending := true;
      resendSuccess := false;
      error := "";
      match response {
        case Success(_) => resendSuccess := true;
        case Failure(e) => error := MessageOf(e, ResendFallback);
      }
      resending := false;
    }
  }
}
