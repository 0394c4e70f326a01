/** The OTP page's resend countdown and role choice
    (Frontend/src/Components/Login/OtpVerification.jsx). The page holds two
    pieces of state: the seconds left, and whether the resend button has
    been used (while it has, the page shows the time left instead of the
    button). */
module OtpVerification {
  import opened Text
  import opened Store

  // ---------------------------------------------------------------------
  // formatTime
  // ---------------------------------------------------------------------

  /** `formatTime(seconds)`: whole minutes, a colon, and the remaining
      seconds padded to two digits. */
  function FormatTime(seconds: nat): (r: string)
    ensures |r| >= 4 && r[|r| - 3] == ':'
    ensures AllDigits(r[..|r| - 3]) && DecimalValue(r[..|r| - 3]) == seconds / 60
    ensures AllDigits(r[|r| - 2..]) && DecimalValue(r[|r| - 2..]) == seconds % 60
    ensures |r| > 4 ==> r[0] != '0'
  {
    var minutes := NatToDecimal(seconds / 60);
    var secs := TwoDigits(seconds % 60);
    assert (minutes + ":" + secs)[..|minutes|] == minutes;
    assert (minutes + ":" + secs)[|minutes| + 1..] == secs;
    minutes + ":" + secs
  }

  /** `${secondsLeft < 10 ? "0" : ""}${secondsLeft}` for a value below 60. */
  function TwoDigits(n: nat): (r: string)
    requires n < 60
    ensures |r| == 2 && AllDigits(r) && DecimalValue(r) == n
  {
    if n < 10 then
      var r := "0" + NatToDecimal(n);
      assert r[..1] == "0";
      r
    else
      DecimalLength(n, 1);
      NatToDecimal(n)
  }

  /** Different times always show differently: the display determines the
      seconds. */
  lemma {:induction false} FormatTimeInjective(a: nat, b: nat)
    requires FormatTime(a) == FormatTime(b)
    ensures a == b
  {
    var r := FormatTime(a);
    assert a / 60 == DecimalValue(r[..|r| - 3]) == b / 60;
    assert a % 60 == DecimalValue(r[|r| - 2..]) == b % 60;
  }

  // ---------------------------------------------------------------------
  // The countdown
  // ---------------------------------------------------------------------

  /** The countdown's state as a value. */
  datatype Timer = Timer(timeLeft: int, btnClicked: bool)

  const InitialSeconds := 300
  const AfterResendSeconds := 120
  const AfterRefusalSeconds := 60

  /** One run of the effect together with the timeout it schedules: while
      the button is used and time is left, one second passes; once time is
      up, the button comes back. */
  function Ticked(t: Timer): Timer
  {
    if t.btnClicked && t.timeLeft > 0 then Timer(t.timeLeft - 1, true)
    else if t.timeLeft == 0 then Timer(0, false)
    else t
  }

  /** `k` ticks in a row. */
  function Ticks(t: Timer, k: nat): Timer
    decreases k
  {
    if k == 0 then t else Ticks(Ticked(t), k - 1)
  }

  /** After `k` ticks from a lockout of `n` seconds, `n - k` seconds are
      left and the button stays hidden, as long as `k <= n`. */
  lemma {:induction false} CountsDown(n: nat, k: nat)
    requires k <= n
    ensures Ticks(Timer(n, true), k) == Timer(n - k, true)
  {
    if k > 0 {
      assert Ticked(Timer(n, true)) == Timer(n - 1, true);
      CountsDown(n - 1, k - 1);
    }
  }

  /** The button comes back after exactly `n + 1` ticks, and not before. */
  lemma {:induction false} ResendReturnsAfterLockout(n: nat, k: nat)
    ensures !Ticks(Timer(n, true), k).btnClicked <==> k > n
  {
    if k == 0 {
    } else if n == 0 {
      SettledStays(k);
    } else {
      assert Ticked(Timer(n, true)) == Timer(n - 1, true);
      ResendReturnsAfterLockout(n - 1, k - 1);
    }
  }

  /** Once at zero, a tick brings the button back and nothing moves after. */
  lemma {:induction false} SettledStays(k: nat)
    requires k >= 1
    ensures Ticks(Timer(0, true), k) == Timer(0, false)
  {
    if k > 1 {
      IdleStays(k - 1);
    }
  }

  lemma {:induction false} IdleStays(k: nat)
    ensures Ticks(Timer(0, false), k) == Timer(0, false)
  {
    if k > 0 {
      IdleStays(k - 1);
    }
  }

  /** Whether the page is for a teacher: `pathname.includes("teacher")`. */
  predicate TeacherPage(path: string)
  {
    Contains(path, "teacher")
  }

  /** What the page uses for its role: the cookie holding the step-up
      token, the resend and verify endpoints, and the route a successful
      verification navigates to. */
  datatype RoleTargets = RoleTargets(cookie: string, resendUrl: string, verifyUrl: string, dashboard: string)

  /** The targets the page picks from its path. */
  function TargetsFor(path: string): (r: RoleTargets)
    ensures TeacherPage(path) ==>
              r == RoleTargets("teacherVerifyToken", "http://localhost:5000/api/teachers/resend-otp",
                               "http://localhost:5000/api/teachers/verify-otp", "/teacher/dashboard")
    ensures !TeacherPage(path) ==>
              r == RoleTargets("studentVerifyToken", "http://localhost:5000/api/students/resend-otp",
                               "http://localhost:5000/api/students/verify-otp", "/student/dashboard")
  {
    if TeacherPage(path) then
      RoleTargets("teacherVerifyToken", "http://localhost:5000/api/teachers/resend-otp",
                  "http://localhost:5000/api/teachers/verify-otp", "/teacher/dashboard")
    else
      RoleTargets("studentVerifyToken", "http://localhost:5000/api/students/resend-otp",
                  "http://localhost:5000/api/students/verify-otp", "/student/dashboard")
  }

  const TeacherOtpRoute := "/teacher/verify-otp"
  const StudentOtpRoute := "/student/verify-otp"

  /** Each of the two OTP routes picks its own role throughout: the step-up
      cookie its login set, its own endpoints and its own dashboard. */
  lemma {:induction false} RoutesPickTheirRole()
    ensures TargetsFor(TeacherOtpRoute).cookie == "teacherVerifyToken"
    ensures TargetsFor(TeacherOtpRoute).verifyUrl == "http://localhost:5000/api/teachers/verify-otp"
    ensures TargetsFor(TeacherOtpRoute).dashboard == "/teacher/dashboard"
    ensures TargetsFor(StudentOtpRoute).cookie == "studentVerifyToken"
    ensures TargetsFor(StudentOtpRoute).resendUrl == "http://localhost:5000/api/students/resend-otp"
    ensures TargetsFor(StudentOtpRoute).verifyUrl == "http://localhost:5000/api/students/verify-otp"
    ensures TargetsFor(StudentOtpRoute).dashboard == "/student/dashboard"
  {
    assert OccursAt(TeacherOtpRoute, "teacher", 1);
    var s := StudentOtpRoute;
    forall i | 0 <= i <= |s|
      ensures !OccursAt(s, "teacher", i)
    {
      if i + 7 <= |s| {
        assert s[i..i + 7][0] == s[i] && s[i..i + 7][1] == s[i + 1];
      }
    }
  }

  class Countdown {
    var timeLeft: int
    var btnClicked: bool

    function State(): Timer
      reads this
    {
      Timer(timeLeft, btnClicked)
    }

    /** The time left is never negative. */
    ghost predicate Valid()
      reads this
    {
      timeLeft >= 0
    }

    /** `useState(300)` and `useState(false)`: the button is available. */
    constructor ()
      ensures Valid() && State() == Timer(InitialSeconds, false)
    {
      timeLeft := InitialSeconds;
      btnClicked := false;
    }

    /** The resend button is shown exactly while it has not been used. */
    function ResendShown(): bool
      reads this
    {
      !btnClicked
    }

    method Tick()
      requires Valid()
      modifies this
      ensures Valid() && State() == Ticked(old(State()))
    {
      if btnClicked && timeLeft > 0 {
        timeLeft := timeLeft - 1;
      } else if timeLeft == 0 {
        btnClicked := false;
      }
    }

    /** A resend the server accepted: two minutes before the next. */
    method ResendSucceeded()
      modifies this
      ensures Valid() && State() == Timer(AfterResendSeconds, true)
    {
      timeLeft := AfterResendSeconds;
      btnClicked := true;
    }

    /** A resend the server refused: only the "already sent" refusal
        starts a one-minute lockout; other errors leave the timer alone. */
    method ResendFailed(status: nat, msg: string)
      requires Valid()
      modifies this
      ensures Valid()
      ensures status == 400 && msg == OtpAlreadySentMsg ==> State() == Timer(AfterRefusalSeconds, true)
      ensures !(status == 400 && msg == OtpAlreadySentMsg) ==> State() == old(State())
    {
      if status == 400 && msg == OtpAlreadySentMsg {
        timeLeft := AfterRefusalSeconds;
        btnClicked := true;
      }
    }
  }
}
