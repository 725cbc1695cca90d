/** The code-entry screen of the one-time-passcode flow: six single-digit
    cells, a resend cooldown counted down once a second, a demo-mode display
    of the issued code, and the submit and resend handlers. The verify and
    send capabilities it awaits are abstract replies passed to the handlers;
    timers are explicit `Tick` and timeout methods; focus moves are returned
    as the index of the cell that receives focus. */
module VerifyOtp {
  import opened Wrappers
  import opened JsText

  const CodeLength := 6
  const CooldownSeconds := 60
  const IncompleteText := "Please enter the complete 6-digit OTP"
  const VerifiedText := "Mobile verified successfully! Redirecting..."
  const ResentText := "New OTP generated!"
  const RegisterPath := "/register"
  const AdminPath := "/admin"

  /** The reply of the `verifyOtp(mobile, code)` capability. */
  datatype VerifyReply = VerifyOk | VerifyErr(error: string)

  /** The reply of the `sendOtp(mobile)` capability; in demo mode it carries
      the new code. */
  datatype SendReply = SendOk(otp: Option<string>) | SendErr(error: string)

  /** The request a complete submission sends. */
  datatype VerifyRequest = VerifyRequest(mobile: Option<string>, code: string)

  /** What one cell may hold: nothing, or exactly one decimal digit
      (the test `/^\d$/`). */
  predicate IsCellValue(v: string) {
    v == "" || (|v| == 1 && IsDigit(v[0]))
  }

  predicate AllCellValues(cells: seq<string>) {
    forall i | 0 <= i < |cells| :: IsCellValue(cells[i])
  }

  /** `otp.join('')`. */
  function Join(cells: seq<string>): string {
    if cells == [] then "" else cells[0] + Join(cells[1..])
  }

  /** Joining two runs of cells joins their texts. */
  lemma {:induction false} JoinAppend(a: seq<string>, b: seq<string>)
    ensures Join(a + b) == Join(a) + Join(b)
  {
    if a == [] {
      assert a + b == b;
    } else {
      assert (a + b)[1..] == a[1..] + b;
      JoinAppend(a[1..], b);
    }
  }

  /** With every cell empty or one digit, the joined code has one character
      per filled cell: it is as long as the buffer exactly when no cell is
      empty. */
  lemma {:induction false} CompleteIffAllFilled(cells: seq<string>)
    requires AllCellValues(cells)
    ensures |Join(cells)| <= |cells|
    ensures |Join(cells)| == |cells| <==> forall i | 0 <= i < |cells| :: cells[i] != ""
  {
    if cells != [] {
      CompleteIffAllFilled(cells[1..]);
      if cells[0] != "" && forall i | 0 <= i < |cells[1..]| :: cells[1..][i] != "" {
        assert forall i | 0 <= i < |cells| :: cells[i] != "" by {
          forall i | 0 <= i < |cells| ensures cells[i] != "" {
            if i > 0 {
              assert cells[i] == cells[1..][i - 1];
            }
          }
        }
      }
    }
  }

  /** The cells that hold no digit. */
  function EmptyCells(n: nat): (cells: seq<string>)
    ensures |cells| == n && Join(cells) == ""
    ensures forall i | 0 <= i < n :: cells[i] == ""
  {
    if n == 0 then [] else [""] + EmptyCells(n - 1)
  }

  /** One cell per digit of `d`. */
  function DigitCells(d: string): (cells: seq<string>)
    requires AllDigits(d)
    ensures |cells| == |d| && Join(cells) == d
    ensures forall i | 0 <= i < |d| :: cells[i] == [d[i]]
  {
    if d == [] then [] else [[d[0]]] + DigitCells(d[1..])
  }

  /** `pastedData.split('').concat(Array(6 - n).fill(''))`. */
  function PastedCells(d: string): (cells: seq<string>)
    requires |d| <= CodeLength && AllDigits(d)
  {
    DigitCells(d) + EmptyCells(CodeLength - |d|)
  }

  /** The pasted digits land left-aligned in cells `0..n-1`, every later cell
      is empty, and joining the buffer gives back exactly the pasted digits. */
  lemma PastedCellsShape(d: string)
    requires |d| <= CodeLength && AllDigits(d)
    ensures |PastedCells(d)| == CodeLength && AllCellValues(PastedCells(d))
    ensures forall i | 0 <= i < CodeLength :: PastedCells(d)[i] == if i < |d| then [d[i]] else ""
    ensures Join(PastedCells(d)) == d
  {
    var c := PastedCells(d);
    forall i | 0 <= i < CodeLength ensures c[i] == if i < |d| then [d[i]] else "" {
      if i < |d| {
        assert c[i] == DigitCells(d)[i];
      } else {
        assert c[i] == EmptyCells(CodeLength - |d|)[i - |d|];
      }
    }
    JoinAppend(DigitCells(d), EmptyCells(CodeLength - |d|));
  }

  /** `text.replace(/\D/g, '').slice(0, 6)`. */
  function PastedDigits(text: string): (d: string)
    ensures |d| <= CodeLength && AllDigits(d)
    ensures |d| <= |Digits(text)| && d == Digits(text)[..|d|]
    ensures |d| == CodeLength || d == Digits(text)
  {
    var all := Digits(text);
    if |all| <= CodeLength then all else all[..CodeLength]
  }

  /** Navigation state field `mobile`, as the screen reads it. */
  function MobileOf(state: map<string, string>): Option<string> {
    Get(state, "mobile")
  }

  /** The redirect effect on entry: nothing while authentication is loading;
      then no mobile number sends the user back to registration, and an
      authenticated and verified session goes to the admin page. */
  function EntryRedirect(mobile: Option<string>, authLoading: bool, isAuthenticated: bool, isVerified: bool): (r: Option<string>)
    ensures authLoading ==> r == None
    ensures !authLoading && !IsTruthy(mobile) ==> r == Some(RegisterPath)
    ensures r == Some(AdminPath) <==> !authLoading && IsTruthy(mobile) && isAuthenticated && isVerified
    ensures r == None <==> authLoading || (IsTruthy(mobile) && !(isAuthenticated && isVerified))
  {
    if authLoading then None
    else if !IsTruthy(mobile) then Some(RegisterPath)
    else if isAuthenticated && isVerified then Some(AdminPath)
    else None
  }

  class OtpEntry {
    /** The six code cells (`otp`). */
    const cells: array<string>
    /** `location.state?.mobile`, fixed for the screen's lifetime. */
    const mobile: Option<string>
    var error: string
    var success: string
    var loading: bool
    var resendTimer: int
    var canResend: bool
    var displayOtp: string
    /** The 1.5 s navigation to the admin page is scheduled. */
    var redirectScheduled: bool
    /** Scheduled 3 s clears of the success banner not yet fired. */
    var pendingSuccessClears: nat
    /** Where the screen navigated, if it did. */
    var navigatedTo: Option<string>

    /** Every cell is empty or one digit, the cooldown lies in 0..60, and
        resend is enabled exactly when the cooldown has run out. */
    ghost predicate Valid()
      reads this, cells
    {
      cells.Length == CodeLength &&
      AllCellValues(cells[..]) &&
      0 <= resendTimer <= CooldownSeconds &&
      (canResend <==> resendTimer == 0)
    }

    /** The screen as it mounts from navigation state `state`: empty cells,
        a full cooldown, and the code from registration on display if the
        state carries one. */
    constructor (state: map<string, string>)
      ensures Valid() && fresh(cells)
      ensures cells[..] == EmptyCells(CodeLength)
      ensures mobile == MobileOf(state)
      ensures resendTimer == CooldownSeconds && !canResend
      ensures displayOtp == if IsTruthy(Get(state, "otp")) then state["otp"] else ""
      ensures error == "" && success == "" && !loading
      ensures !redirectScheduled && pendingSuccessClears == 0 && navigatedTo == None
    {
      cells := new string[CodeLength](_ => "");
      mobile := MobileOf(state);
      error, success, loading := "", "", false;
      resendTimer, canResend := CooldownSeconds, false;
      displayOtp := if IsTruthy(Get(state, "otp")) then state["otp"] else "";
      redirectScheduled, pendingSuccessClears, navigatedTo := false, 0, None;
      new;
      assert cells[..] == EmptyCells(CodeLength);
    }

    /** `handleChange(index, value)`: anything but nothing or one digit is
        refused without a change; otherwise only cell `index` changes, and
        focus moves on when a digit was entered before the last cell. */
    method Change(index: int, value: string) returns (focus: Option<int>)
      requires Valid() && 0 <= index < CodeLength
      modifies cells
      ensures Valid()
      ensures !IsCellValue(value) ==> cells[..] == old(cells[..])
      ensures IsCellValue(value) ==> cells[..] == old(cells[..])[index := value]
      ensures focus == if IsCellValue(value) && value != "" && index < CodeLength - 1 then Some(index + 1) else None
    {
      focus := None;
      if value != "" && !IsCellValue(value) {
        return;
      }
      cells[index] := value;
      assert cells[..] == old(cells[..])[index := value];
      if value != "" && index < CodeLength - 1 {
        focus := Some(index + 1);
      }
    }

    /** `handleKeyDown(index, e)`: Backspace on an empty cell after the first
        moves focus one cell back; the cells never change. */
    method KeyDown(index: int, key: string) returns (focus: Option<int>)
      requires Valid() && 0 <= index < CodeLength
      ensures focus.Some? <==> key == "Backspace" && cells[index] == "" && index > 0
      ensures focus.Some? ==> focus.value == index - 1
    {
      focus := None;
      if key == "Backspace" && cells[index] == "" && index > 0 {
        focus := Some(index - 1);
      }
    }

    /** `handlePaste(e)`: the digits of the pasted text, at most six, fill the
        cells from the left and empty the rest; focus goes to cell
        `min(n, 5)`. A paste without digits changes nothing. */
    method Paste(text: string) returns (focus: Option<int>)
      requires Valid()
      modifies cells
      ensures Valid()
      ensures PastedDigits(text) == "" ==> cells[..] == old(cells[..]) && focus == None
      ensures PastedDigits(text) != "" ==>
        cells[..] == PastedCells(PastedDigits(text)) &&
        Join(cells[..]) == PastedDigits(text) &&
        focus == Some(if |PastedDigits(text)| < CodeLength - 1 then |PastedDigits(text)| else CodeLength - 1)
    {
      focus := None;
      var d := PastedDigits(text);
      if d != "" {
        var filled := PastedCells(d);
        PastedCellsShape(d);
        forall i | 0 <= i < CodeLength {
          cells[i] := filled[i];
        }
        assert cells[..] == filled;
        focus := Some(if |d| < CodeLength - 1 then |d| else CodeLength - 1);
      }
    }

    /** `handleSubmit`: an incomplete code is reported and nothing is sent;
        a complete code is sent with the mobile number. A rejection shows the
        server's text; a success shows the success text and schedules the
        navigation to the admin page. The cells, the cooldown and the
        displayed code are never touched, and loading always ends. */
    method Submit(reply: VerifyReply) returns (sent: Option<VerifyRequest>)
      requires Valid()
      modifies this
      ensures Valid()
      ensures !loading
      ensures resendTimer == old(resendTimer) && canResend == old(canResend) && displayOtp == old(displayOtp)
      ensures pendingSuccessClears == old(pendingSuccessClears) && navigatedTo == old(navigatedTo)
      ensures sent.Some? <==> forall i | 0 <= i < CodeLength :: cells[i] != ""
      ensures sent.Some? ==> sent.value == VerifyRequest(mobile, Join(cells[..])) && |sent.value.code| == CodeLength
      ensures sent.None? ==>
        error == IncompleteText && success == old(success) && redirectScheduled == old(redirectScheduled)
      ensures sent.Some? && reply.VerifyOk? ==> error == "" && success == VerifiedText && redirectScheduled
      ensures sent.Some? && reply.VerifyErr? ==>
        error == reply.error && success == old(success) && redirectScheduled == old(redirectScheduled)
    {
      error := "";
      loading := true;
      var code := Join(cells[..]);
      CompleteIffAllFilled(cells[..]);
      assert (forall i | 0 <= i < CodeLength :: cells[i] != "") <==>
             (forall i | 0 <= i < |cells[..]| :: cells[..][i] != "");
      if |code| != CodeLength {
        error := IncompleteText;
        loading := false;
        return None;
      }
      sent := Some(VerifyRequest(mobile, code));
      match reply {
        case VerifyOk =>
          success := VerifiedText;
          redirectScheduled := true;
        case VerifyErr(e) =>
          error := e;
      }
      loading := false;
    }

    /** `handleResend`: does nothing while the cooldown runs. Otherwise a new
        code is requested; on success the cooldown restarts, every cell is
        emptied with focus on the first, and the displayed code is replaced
        only when the reply carries one; on failure only the error changes. */
    method Resend(reply: SendReply) returns (sent: bool, focus: Option<int>)
      requires Valid()
      modifies this, cells
      ensures Valid()
      ensures sent == old(canResend)
      ensures redirectScheduled == old(redirectScheduled) && navigatedTo == old(navigatedTo)
      ensures !sent ==>
        cells[..] == old(cells[..]) && error == old(error) && success == old(success) &&
        loading == old(loading) && resendTimer == old(resendTimer) && !canResend &&
        displayOtp == old(displayOtp) && pendingSuccessClears == old(pendingSuccessClears) && focus == None
      ensures sent ==> !loading
      ensures sent && reply.SendOk? ==>
        cells[..] == EmptyCells(CodeLength) && focus == Some(0) &&
        resendTimer == CooldownSeconds && !canResend &&
        error == "" && success == ResentText && pendingSuccessClears == old(pendingSuccessClears) + 1 &&
        displayOtp == (if IsTruthy(reply.otp) then reply.otp.value else old(displayOtp))
      ensures sent && reply.SendErr? ==>
        cells[..] == old(cells[..]) && focus == None &&
        resendTimer == old(resendTimer) && canResend == old(canResend) &&
        error == reply.error && success == old(success) &&
        displayOtp == old(displayOtp) && pendingSuccessClears == old(pendingSuccessClears)
    {
      sent, focus := false, None;
      if !canResend {
        return;
      }
      sent := true;
      loading := true;
      error := "";
      match reply {
        case SendOk(otp) =>
          success := ResentText;
          resendTimer := CooldownSeconds;
          canResend := false;
          forall i | 0 <= i < CodeLength {
            cells[i] := "";
          }
          assert cells[..] == EmptyCells(CodeLength);
          focus := Some(0);
          if IsTruthy(otp) {
            displayOtp := otp.value;
          }
          pendingSuccessClears := pendingSuccessClears + 1;
        case SendErr(e) =>
          error := e;
      }
      loading := false;
    }

    /** One second of the countdown: the interval lowers a positive cooldown
        by one, and the effect enables resend once it reaches zero; at zero no
        interval runs and nothing changes. */
    method Tick()
      requires Valid()
      modifies this
      ensures Valid()
      ensures resendTimer == if old(resendTimer) > 0 then old(resendTimer) - 1 else 0
      ensures canResend <==> resendTimer == 0
      ensures error == old(error) && success == old(success) && loading == old(loading)
      ensures displayOtp == old(displayOtp) && redirectScheduled == old(redirectScheduled)
      ensures pendingSuccessClears == old(pendingSuccessClears) && navigatedTo == old(navigatedTo)
    {
      if resendTimer > 0 {
        resendTimer := resendTimer - 1;
        if resendTimer == 0 {
          canResend := true;
        }
      }
    }

    /** The 3 s timeout scheduled by a successful resend: it empties the
        success banner, whatever it then shows. */
    method SuccessTimeout()
      requires Valid() && pendingSuccessClears > 0
      modifies this
      ensures Valid()
      ensures success == "" && pendingSuccessClears == old(pendingSuccessClears) - 1
      ensures error == old(error) && loading == old(loading) && resendTimer == old(resendTimer)
      ensures canResend == old(canResend) && displayOtp == old(displayOtp)
      ensures redirectScheduled == old(redirectScheduled) && navigatedTo == old(navigatedTo)
    {
      success := "";
      pendingSuccessClears := pendingSuccessClears - 1;
    }

    /** The 1.5 s timeout scheduled by a successful verification: it
        navigates to the admin page. */
    method RedirectTimeout()
      requires Valid() && redirectScheduled
      modifies this`redirectScheduled, this`navigatedTo
      ensures Valid()
      ensures !redirectScheduled && navigatedTo == Some(AdminPath)
    {
      redirectScheduled := false;
      navigatedTo := Some(AdminPath);
    }
  }

  /** Waiting out the cooldown: ticking until resend is enabled takes exactly
      as many ticks as seconds remained, 60 on a fresh screen. */
  method WaitForResend(e: OtpEntry) returns (ticks: nat)
    requires e.Valid()
    modifies e
    ensures e.Valid() && e.canResend && e.resendTimer == 0
    ensures ticks == old(e.resendTimer)
  {
    ticks := 0;
    while !e.canResend
      invariant e.Valid()
      invariant ticks + e.resendTimer == old(e.resendTimer)
      decreases e.resendTimer
    {
      e.Tick();
      ticks := ticks + 1;
    }
  }
}
