/**
 * Shared vocabulary of the TaxiTrack backend: optional values, HTTP replies,
 * roles, ride statuses and their wire names, decimal text for ids, and the
 * socket.io room names built from them.
 */
module Common {

  datatype Option<+T> = None | Some(value: T)
  {
    function GetOr(default: T): T
    {
      match this
      case Some(v) => v
      case None => default
    }
  }

  /** What a handler answers: a success with its HTTP code and payload, or an error code with its message. */
  datatype Reply<+T> = Ok(code: int, value: T) | Err(code: int, message: string)

  /** The first error PostgreSQL reports for a statement: its SQLSTATE code and message. */
  datatype Violation = Violation(code: string, message: string)

  /** CURRENT_TIMESTAMP and `new Date()` are read from the caller as a number. */
  type Timestamp = int

  datatype Role = Admin | Client | Driver

  function RoleName(r: Role): string
  {
    match r
    case Admin => "admin"
    case Client => "client"
    case Driver => "driver"
  }

  /** The six values the rides.status CHECK constraint admits (database/update_ride_statuses.js). */
  datatype RideStatus = Pending | Accepted | Arrived | InProgress | Completed | Cancelled

  /** The statuses every "ride in progress" query lists: pending, accepted, arrived, in_progress. */
  predicate IsActive(s: RideStatus)
  {
    s == Pending || s == Accepted || s == Arrived || s == InProgress
  }

  /** The statuses the history queries list: completed, cancelled. */
  predicate IsFinished(s: RideStatus)
  {
    s == Completed || s == Cancelled
  }

  function StatusName(s: RideStatus): string
  {
    match s
    case Pending => "pending"
    case Accepted => "accepted"
    case Arrived => "arrived"
    case InProgress => "in_progress"
    case Completed => "completed"
    case Cancelled => "cancelled"
  }

  /** Reads a status sent as text; anything but the six names is not a status. */
  function ParseStatus(t: string): (r: Option<RideStatus>)
    ensures r.Some? ==> StatusName(r.value) == t
    ensures r.None? ==> forall s: RideStatus :: StatusName(s) != t
  {
    if t == "pending" then Some(Pending)
    else if t == "accepted" then Some(Accepted)
    else if t == "arrived" then Some(Arrived)
    else if t == "in_progress" then Some(InProgress)
    else if t == "completed" then Some(Completed)
    else if t == "cancelled" then Some(Cancelled)
    else None
  }

  lemma ParseStatusName(s: RideStatus)
    ensures ParseStatus(StatusName(s)) == Some(s)
  {
  }

  // ---------------------------------------------------------------------------
  // Decimal text of ids, as template strings such as `user_${id}` produce it.

  predicate IsDigit(c: char)
  {
    '0' <= c <= '9'
  }

  predicate AllDigits(s: string)
  {
    forall i | 0 <= i < |s| :: IsDigit(s[i])
  }

  function DigitChar(d: nat): (c: char)
    requires d < 10
    ensures IsDigit(c) && c as int - '0' as int == d
  {
    ('0' as int + d) as char
  }

  function NatToString(n: nat): (s: string)
    ensures |s| >= 1 && AllDigits(s)
    decreases n
  {
    if n < 10 then [DigitChar(n)] else NatToString(n / 10) + [DigitChar(n % 10)]
  }

  /** The number a string of decimal digits denotes. */
  function DigitsValue(s: string): nat
    requires AllDigits(s)
    decreases |s|
  {
    if s == [] then 0
    else 10 * DigitsValue(s[..|s| - 1]) + (s[|s| - 1] as int - '0' as int)
  }

  lemma {:induction false} DigitsValueOfNatToString(n: nat)
    ensures DigitsValue(NatToString(n)) == n
    decreases n
  {
    if n >= 10 {
      var s := NatToString(n / 10);
      var t := s + [DigitChar(n % 10)];
      assert NatToString(n) == t;
      assert t[..|t| - 1] == s;
      DigitsValueOfNatToString(n / 10);
    }
  }

  function IntToString(i: int): (s: string)
    ensures |s| >= 1
  {
    if i < 0 then "-" + NatToString(-i) else NatToString(i)
  }

  /** A string is an integer literal: an optional sign and at least one digit (validator.js isInt with leading zeros allowed). */
  predicate IsIntString(s: string)
  {
    if |s| > 0 && (s[0] == '-' || s[0] == '+') then |s| > 1 && AllDigits(s[1..])
    else |s| > 0 && AllDigits(s)
  }

  function ParseIntString(s: string): int
    requires IsIntString(s)
  {
    if s[0] == '-' then 0 - DigitsValue(s[1..]) as int
    else if s[0] == '+' then DigitsValue(s[1..])
    else DigitsValue(s)
  }

  /** Printing an id and reading it back gives the id: the decimal text is faithful. */
  lemma {:induction false} IntStringRoundTrip(i: int)
    ensures IsIntString(IntToString(i))
    ensures ParseIntString(IntToString(i)) == i
  {
    if i < 0 {
      var s := NatToString(-i);
      assert IntToString(i)[1..] == s;
      DigitsValueOfNatToString(-i);
    } else {
      var s := NatToString(i);
      assert IsDigit(s[0]);
      DigitsValueOfNatToString(i);
    }
  }

  lemma IntToStringInjective(a: int, b: int)
    requires IntToString(a) == IntToString(b)
    ensures a == b
  {
    IntStringRoundTrip(a);
    IntStringRoundTrip(b);
  }

  // ---------------------------------------------------------------------------
  // socket.io rooms (config/socket.js): `user_<id>`, 'drivers', 'clients'.

  datatype Room = UserRoom(userId: int) | DriversRoom | ClientsRoom

  function RoomName(r: Room): string
  {
    match r
    case UserRoom(id) => "user_" + IntToString(id)
    case DriversRoom => "drivers"
    case ClientsRoom => "clients"
  }

  /** Distinct rooms have distinct names, so addressing a room by its name never reaches another room. */
  lemma RoomNameInjective(a: Room, b: Room)
    requires RoomName(a) == RoomName(b)
    ensures a == b
  {
    match a
    case UserRoom(x) =>
      assert RoomName(a)[0] == 'u';
      assert b.UserRoom?;
      assert RoomName(a)[5..] == IntToString(x);
      assert RoomName(b)[5..] == IntToString(b.userId);
      IntToStringInjective(x, b.userId);
    case DriversRoom =>
      assert RoomName(a)[0] == 'd';
    case ClientsRoom =>
      assert RoomName(a)[0] == 'c';
  }
}
