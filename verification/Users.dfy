/**
 The User aggregate and its Protocol Buffers serdes. Encoding a birth date keeps
 the calendar date and loses the time of day and the zone; this module shows that
 replay does not notice. Encoded values stand for their bytes.
 */
module Users {
  import opened Options
  import opened Versions
  import opened EventStore
  import opened Aggregates
  import opened PgTables
  import opened PgSnapshots
  import opened PgReuse

  // ------------------------------------------------------------- times and dates

  predicate IsLeap(year: int) {
    year % 4 == 0 && (year % 100 != 0 || year % 400 == 0)
  }

  function DaysIn(year: int, month: int): int {
    if month == 2 then (if IsLeap(year) then 29 else 28)
    else if month == 4 || month == 6 || month == 9 || month == 11 then 30
    else 31
  }

  /** The date in the time's own zone, the nanoseconds since midnight there, and the zone's offset in seconds. */
  datatype RawTime = RawTime(year: int, month: int, day: int, nanos: nat, zone: int)

  predicate OnCalendar(t: RawTime) {
    1 <= t.month <= 12 && 1 <= t.day <= DaysIn(t.year, t.month)
  }

  type Time = t: RawTime | OnCalendar(t) witness RawTime(1, 1, 1, 0, 0)

  const UTC := 0

  const ZERO_TIME: Time := RawTime(1, 1, 1, 0, UTC)

  const DAY: int := 86_400_000_000_000

  /** The days of the calendar before a year, counted from the first day of year 1. */
  function DaysBeforeYear(year: int): int {
    365 * (year - 1) + (year - 1) / 4 - (year - 1) / 100 + (year - 1) / 400
  }

  function DaysBeforeMonth(year: int, month: int): int
    requires 1 <= month <= 12
    decreases month
  {
    if month == 1 then 0 else DaysBeforeMonth(year, month - 1) + DaysIn(year, month - 1)
  }

  /** The number of a day of the calendar; a day outside the month counts on from it. */
  function DayNumber(year: int, month: int, day: int): int
    requires 1 <= month <= 12
  {
    DaysBeforeYear(year) + DaysBeforeMonth(year, month) + day - 1
  }

  /** Nanoseconds from the beginning of year 1, UTC. */
  function InstantOf(t: Time): int {
    DayNumber(t.year, t.month, t.day) * DAY + t.nanos - t.zone * 1_000_000_000
  }

  /** Whether a time is the zero instant, in whatever zone it is shown. */
  predicate IsZero(t: Time) {
    InstantOf(t) == InstantOf(ZERO_TIME)
  }

  /**
   Which times are zero: midnight of the first day of year 1, UTC, as clocks in the
   zones to the east show it on that day and in the zones to the west on the day
   before.
   */
  lemma {:induction false} ZeroTimes(t: Time)
    requires t.nanos < DAY && -86_400 < t.zone < 86_400
    ensures IsZero(t) <==>
            || (t.year == 1 && t.month == 1 && t.day == 1 && t.nanos == t.zone * 1_000_000_000)
            || (t.year == 0 && t.month == 12 && t.day == 31 && t.nanos == DAY + t.zone * 1_000_000_000)
  {
    var n := DayNumber(t.year, t.month, t.day);
    assert DayNumber(1, 1, 1) == 0;
    if IsZero(t) {
      assert n == 0 || n == -1;
    }
    DayNearZero(t.year, t.month, t.day);
  }

  lemma {:induction false} MonthsFit(year: int, month: int)
    requires 1 <= month <= 12
    ensures 0 <= DaysBeforeMonth(year, month)
    ensures month == 12 ==> DaysBeforeMonth(year, month) == if IsLeap(year) then 335 else 334
    ensures 1 < month ==> 31 <= DaysBeforeMonth(year, month)
    ensures month < 12 ==> DaysBeforeMonth(year, month) + DaysIn(year, month) <= if IsLeap(year) then 335 else 334
    decreases 12 - month
  {
    assert DaysBeforeMonth(year, 1) == 0;
    assert DaysBeforeMonth(year, 2) == 31;
    assert DaysBeforeMonth(year, 3) == if IsLeap(year) then 60 else 59;
    assert DaysBeforeMonth(year, 4) == DaysBeforeMonth(year, 3) + 31;
    assert DaysBeforeMonth(year, 5) == DaysBeforeMonth(year, 4) + 30;
    assert DaysBeforeMonth(year, 6) == DaysBeforeMonth(year, 5) + 31;
    assert DaysBeforeMonth(year, 7) == DaysBeforeMonth(year, 6) + 30;
    assert DaysBeforeMonth(year, 8) == DaysBeforeMonth(year, 7) + 31;
    assert DaysBeforeMonth(year, 9) == DaysBeforeMonth(year, 8) + 31;
    assert DaysBeforeMonth(year, 10) == DaysBeforeMonth(year, 9) + 30;
    assert DaysBeforeMonth(year, 11) == DaysBeforeMonth(year, 10) + 31;
    assert DaysBeforeMonth(year, 12) == DaysBeforeMonth(year, 11) + 30;
  }

  lemma {:induction false} FourYears(year: int)
    ensures year / 4 == (year - 1) / 4 + if year % 4 == 0 then 1 else 0
  {
  }

  lemma {:induction false} Centuries(year: int)
    ensures year / 100 == (year - 1) / 100 + if year % 100 == 0 then 1 else 0
  {
  }

  lemma {:induction false} FourCenturies(year: int)
    ensures year / 400 == (year - 1) / 400 + if year % 400 == 0 then 1 else 0
    ensures year % 400 == 0 ==> year % 100 == 0
    ensures year % 100 == 0 ==> year % 4 == 0
  {
  }

  /** Years follow each other without a gap. */
  lemma {:induction false} YearsFit(year: int)
    ensures DaysBeforeYear(year + 1) == DaysBeforeYear(year) + if IsLeap(year) then 366 else 365
  {
    FourYears(year);
    Centuries(year);
    FourCenturies(year);
  }

  lemma {:induction false} YearsFarFromZero(year: int)
    ensures 2 <= year ==> 365 <= DaysBeforeYear(year)
    ensures year <= -1 ==> DaysBeforeYear(year) <= -731
  {
  }

  lemma {:induction false} DayNearZero(year: int, month: int, day: int)
    requires 1 <= month <= 12 && 1 <= day <= DaysIn(year, month)
    ensures DayNumber(year, month, day) == 0 <==> year == 1 && month == 1 && day == 1
    ensures DayNumber(year, month, day) == -1 <==> year == 0 && month == 12 && day == 31
  {
    MonthsFit(year, month);
    YearsFarFromZero(year);
    assert DaysBeforeYear(1) == 0 && DaysBeforeYear(0) == -366;
  }

  /** A date message, with 32-bit fields. */
  datatype Date = Date(year: int, month: int, day: int)

  /** Conversion to a signed 32-bit integer. */
  function ToInt32(n: int): int {
    (n + 0x8000_0000) % 0x1_0000_0000 - 0x8000_0000
  }

  /** The conversion keeps the number modulo 2^32, in the range of the type. */
  lemma {:induction false} ToInt32Wraps(n: int)
    ensures FitsInt32(ToInt32(n)) && (n - ToInt32(n)) % 0x1_0000_0000 == 0
    ensures FitsInt32(n) ==> ToInt32(n) == n
  {
    var q := (n + 0x8000_0000) / 0x1_0000_0000;
    assert n - ToInt32(n) == q * 0x1_0000_0000;
  }

  predicate FitsInt32(n: int) {
    -0x8000_0000 <= n < 0x8000_0000
  }

  function TimeToDate(t: Time): Date {
    Date(ToInt32(t.year), ToInt32(t.month), ToInt32(t.day))
  }

  /** A date message carries the numbers of the date, the year cut to 32 bits. */
  lemma {:induction false} DateFields(t: Time)
    ensures var d := TimeToDate(t);
            && d.month == t.month && d.day == t.day
            && FitsInt32(d.year) && (t.year - d.year) % 0x1_0000_0000 == 0
  {
    ToInt32Wraps(t.year);
  }

  /** Moves days that lie outside a month to the months before or after it. */
  function NormalizeDay(year: int, month: int, day: int): (t: Time)
    requires 1 <= month <= 12
    ensures 1 <= day <= DaysIn(year, month) ==> t == RawTime(year, month, day, 0, UTC)
    decreases if day < 1 then 1 - day else 0, if day > 0 then day else 0
  {
    if day < 1 then
      var (y, m) := if month == 1 then (year - 1, 12) else (year, month - 1);
      NormalizeDay(y, m, day + DaysIn(y, m))
    else if day > DaysIn(year, month) then
      var (y, m) := if month == 12 then (year + 1, 1) else (year, month + 1);
      NormalizeDay(y, m, day - DaysIn(year, month))
    else RawTime(year, month, day, 0, UTC)
  }

  /** Each month begins where the one before it ends. */
  lemma {:induction false} MonthsFollow(year: int, month: int)
    requires 1 <= month <= 12
    ensures var (y, m) := if month == 12 then (year + 1, 1) else (year, month + 1);
            DaysBeforeYear(y) + DaysBeforeMonth(y, m)
            == DaysBeforeYear(year) + DaysBeforeMonth(year, month) + DaysIn(year, month)
  {
    if month == 12 {
      MonthsFit(year, 12);
      YearsFit(year);
    }
  }

  lemma {:induction false} SameDay(year: int, month: int, day: int)
    requires 1 <= month <= 12
    ensures var (y, m) := if month == 12 then (year + 1, 1) else (year, month + 1);
            DayNumber(y, m, day - DaysIn(year, month)) == DayNumber(year, month, day)
  {
    MonthsFollow(year, month);
  }

  /** Normalizing a day, however far outside its month, keeps its place in the calendar. */
  lemma {:induction false} NormalizeKeepsDay(year: int, month: int, day: int)
    requires 1 <= month <= 12
    ensures var t := NormalizeDay(year, month, day);
            DayNumber(t.year, t.month, t.day) == DayNumber(year, month, day) && t.nanos == 0 && t.zone == UTC
    decreases if day < 1 then 1 - day else 0, if day > 0 then day else 0
  {
    if day < 1 {
      var (y, m) := if month == 1 then (year - 1, 12) else (year, month - 1);
      SameDay(y, m, day + DaysIn(y, m));
      NormalizeKeepsDay(y, m, day + DaysIn(y, m));
    } else if day > DaysIn(year, month) {
      var (y, m) := if month == 12 then (year + 1, 1) else (year, month + 1);
      SameDay(year, month, day);
      NormalizeKeepsDay(y, m, day - DaysIn(year, month));
    }
  }

  /** Midnight, UTC, on a date; out-of-range months and days are normalized. */
  function DateToTime(d: Date): Time {
    NormalizeDay(d.year + (d.month - 1) / 12, (d.month - 1) % 12 + 1, d.day)
  }

  /** A date stands for the day its number says in the month it names, counting months over the years. */
  lemma {:induction false} DateToTimeIsThatDay(d: Date, year: int, month: int)
    requires 1 <= month <= 12 && 12 * year + month == 12 * d.year + d.month
    ensures var t := DateToTime(d);
            DayNumber(t.year, t.month, t.day) == DayNumber(year, month, d.day) && t.nanos == 0 && t.zone == UTC
  {
    WholeYears(d.month - 1, year - d.year, month - 1);
    NormalizeKeepsDay(year, month, d.day);
  }

  lemma {:induction false} WholeYears(months: int, years: int, rest: int)
    requires months == 12 * years + rest && 0 <= rest < 12
    ensures months / 12 == years && months % 12 == rest
  {
  }

  /** What comes back of a time. */
  function Stored(t: Time): Time {
    DateToTime(TimeToDate(t))
  }

  /** A time whose year fits, without its time of day and zone. */
  function Midnight(t: Time): Time {
    RawTime(t.year, t.month, t.day, 0, UTC)
  }

  /** A date survives encoding exactly when its year fits 32 bits. */
  lemma {:induction false} DateRoundTrip(t: Time)
    ensures DateToTime(TimeToDate(t)) == Midnight(t) <==> FitsInt32(t.year)
  {
    var d := TimeToDate(t);
    assert d.month == t.month && d.day == t.day;
    assert DateToTime(d) == NormalizeDay(d.year, d.month, d.day);
    if FitsInt32(t.year) {
      assert d.year == t.year;
    } else {
      assert d.year != t.year;
      SameYear(d.year, d.month, d.day);
    }
  }

  /** A day that exists in the month of some year stays in that month's year. */
  lemma {:induction false} SameYear(year: int, month: int, day: int)
    requires 1 <= month <= 12 && 1 <= day <= 31
    requires day <= DaysIn(year, month) || (month == 2 && day == 29)
    ensures NormalizeDay(year, month, day).year == year
  {
    if day > DaysIn(year, month) {
      assert NormalizeDay(year, month, day) == NormalizeDay(year, 3, 1);
    }
  }

  /** Encoding again loses nothing more, whatever the first encoding truncated. */
  lemma {:induction false} StoredTwice(t: Time)
    ensures Stored(Stored(t)) == Stored(t)
  {
    var d := TimeToDate(t);
    SameYear(d.year, d.month, d.day);
    DateRoundTrip(Stored(t));
  }

  // ------------------------------------------------------------- the aggregate

  /** An instant and the zone it is shown in. */
  datatype Instant = Instant(nanos: int, zone: int)

  /** `Other` stands for an event kind the aggregate does not know. */
  datatype EventKind =
    | WasCreated(firstName: string, lastName: string, birthDate: Time, email: string)
    | EmailWasUpdated(email: string)
    | Other

  /** `Foreign` stands for a message that is not a user event. */
  datatype UserEvent = Event(id: StreamID, recordTime: Instant, kind: EventKind) | Foreign

  datatype UserState = UserState(id: StreamID, firstName: string, lastName: string, birthDate: Time, email: string)

  const ZERO_USER := UserState(0, "", "", ZERO_TIME, "")

  function ApplyUser(s: UserState, e: UserEvent): Applied<UserState> {
    match e
    case Foreign => Applied(s, false)
    case Event(id, _, kind) =>
      match kind
      case WasCreated(first, last, birth, email) => Applied(UserState(id, first, last, birth, email), true)
      case EmailWasUpdated(email) => Applied(s.(email := email), true)
      case Other => Applied(s, false)
  }

  const USER: Aggregate<UserState, UserEvent> := Aggregate(ZERO_USER, ApplyUser)

  datatype UserError = InvalidFirstName | InvalidLastName | InvalidEmail | InvalidBirthDate | ApplyFailed

  class User {
    const base: BaseRoot<UserEvent>
    var id: StreamID
    var firstName: string
    var lastName: string
    var birthDate: Time
    var email: string

    constructor ()
      ensures fresh(base) && Value() == Root(ZERO_USER, 0, [])
    {
      base := new BaseRoot();
      id, firstName, lastName, birthDate, email := 0, "", "", ZERO_TIME, "";
    }

    function View(): UserState
      reads this
    {
      UserState(id, firstName, lastName, birthDate, email)
    }

    ghost function Value(): Root<UserState, UserEvent>
      reads this, base
    {
      Root(View(), base.version, base.recordedEvents)
    }

    method Apply(e: UserEvent) returns (ok: bool)
      modifies this
      ensures Applied(View(), ok) == ApplyUser(old(View()), e)
    {
      if e.Foreign? {
        return false;
      }
      ok := true;
      match e.kind {
        case WasCreated(first, last, birth, email') =>
          id := e.id;
          firstName := first;
          lastName := last;
          birthDate := birth;
          email := email';
        case EmailWasUpdated(email') => email := email';
        case Other => ok := false;
      }
    }

    /** Applies one event and, when that works, records it and counts it in the version. */
    method RecordThat(e: UserEvent) returns (ok: bool)
      modifies this, base
      ensures Applied(View(), ok) == ApplyUser(old(View()), e)
      ensures base.version == (if ok then Plus(old(base.version), 1) else old(base.version))
      ensures base.recordedEvents == old(base.recordedEvents) + (if ok then [e] else [])
    {
      ok := Apply(e);
      if ok {
        base.Track(e);
      }
    }

    method UpdateEmail(newEmail: string, now: Instant) returns (err: Option<UserError>)
      modifies this, base
      ensures match DecideUser(old(View()), UserCommand.UpdateEmail(newEmail, now))
              case Invalid(errors) => errors != [] && err == Some(errors[0]) && Value() == old(Value())
              case Recorded(e) =>
                && err == None
                && Value() == Root(ApplyUser(old(View()), e).state, Plus(old(base.version), 1),
                                   old(base.recordedEvents) + [e])
      ensures View() == old(View()).(email := if newEmail == "" then old(email) else newEmail)
      ensures err == if newEmail == "" then Some(InvalidEmail) else None
      ensures base.recordedEvents
           == old(base.recordedEvents)
              + (if newEmail == "" then [] else [Event(old(id), now, EmailWasUpdated(newEmail))])
    {
      if newEmail == "" {
        return Some(InvalidEmail);
      }
      var ok := RecordThat(Event(id, now, EmailWasUpdated(newEmail)));
      err := if ok then None else Some(ApplyFailed);
    }
  }

  /** The checks of a creation, in order; every one that fails is reported. */
  method Check(firstName: string, lastName: string, email: string, birthDate: Time) returns (errors: seq<UserError>)
    ensures errors == CreationErrors(firstName, lastName, email, birthDate)
  {
    errors := [];
    if firstName == "" {
      errors := errors + [InvalidFirstName];
    }
    if lastName == "" {
      errors := errors + [InvalidLastName];
    }
    if email == "" {
      errors := errors + [InvalidEmail];
    }
    if IsZero(birthDate) {
      errors := errors + [InvalidBirthDate];
    }
  }

  /** Creates a user, or returns every reason why it cannot. */
  method Create(id: StreamID, firstName: string, lastName: string, email: string, birthDate: Time, now: Instant)
      returns (user: User?, errors: seq<UserError>)
    ensures user == null <==> errors != []
    ensures user != null ==> fresh(user) && fresh(user.base)
    ensures match DecideUser(ZERO_USER, CreateUser(id, firstName, lastName, email, birthDate, now))
            case Invalid(reasons) => errors == reasons
            case Recorded(e) => errors == [] && user.Value() == Root(ApplyUser(ZERO_USER, e).state, 1, [e])
    ensures user != null ==> user.View() == UserState(id, firstName, lastName, birthDate, email)
    ensures user != null ==>
              && user.base.version == 1
              && user.base.recordedEvents == [Event(id, now, WasCreated(firstName, lastName, birthDate, email))]
    ensures InvalidFirstName in errors <==> firstName == ""
    ensures InvalidLastName in errors <==> lastName == ""
    ensures InvalidEmail in errors <==> email == ""
    ensures InvalidBirthDate in errors <==> IsZero(birthDate)
  {
    errors := Check(firstName, lastName, email, birthDate);
    if errors != [] {
      return null, errors;
    }
    var created := new User();
    var ok := created.RecordThat(Event(id, now, WasCreated(firstName, lastName, birthDate, email)));
    if !ok {
      return null, [ApplyFailed];
    }
    user := created;
  }

  // ------------------------------------------------------------- produced logs

  datatype UserCommand =
    | CreateUser(id: StreamID, firstName: string, lastName: string, email: string, birthDate: Time, now: Instant)
    | UpdateEmail(newEmail: string, now: Instant)

  datatype UserDecision = Recorded(event: UserEvent) | Invalid(errors: seq<UserError>)

  /** The order of the checks of a creation. */
  function Rank(e: UserError): nat {
    match e
    case InvalidFirstName => 0
    case InvalidLastName => 1
    case InvalidEmail => 2
    case InvalidBirthDate => 3
    case ApplyFailed => 4
  }

  /** Every check of a creation that fails, once and in order. */
  function CreationErrors(first: string, last: string, email: string, birth: Time): (errors: seq<UserError>)
    ensures InvalidFirstName in errors <==> first == ""
    ensures InvalidLastName in errors <==> last == ""
    ensures InvalidEmail in errors <==> email == ""
    ensures InvalidBirthDate in errors <==> IsZero(birth)
    ensures ApplyFailed !in errors
  {
    (if first == "" then [InvalidFirstName] else []) + (if last == "" then [InvalidLastName] else [])
    + (if email == "" then [InvalidEmail] else []) + (if IsZero(birth) then [InvalidBirthDate] else [])
  }

  ghost predicate InOrderOfChecks(errors: seq<UserError>) {
    forall i, j :: 0 <= i < j < |errors| ==> Rank(errors[i]) < Rank(errors[j])
  }

  lemma {:induction false} OneMoreError(errors: seq<UserError>, e: UserError, fails: bool)
    requires InOrderOfChecks(errors) && forall i :: 0 <= i < |errors| ==> Rank(errors[i]) < Rank(e)
    ensures InOrderOfChecks(errors + (if fails then [e] else []))
  {
  }

  /** Errors come in the order of the checks, each once. */
  lemma {:induction false} ErrorsInOrder(first: string, last: string, email: string, birth: Time)
    ensures InOrderOfChecks(CreationErrors(first, last, email, birth))
  {
    var one := if first == "" then [InvalidFirstName] else [];
    var two := one + if last == "" then [InvalidLastName] else [];
    var three := two + if email == "" then [InvalidEmail] else [];
    OneMoreError(one, InvalidLastName, last == "");
    OneMoreError(two, InvalidEmail, email == "");
    OneMoreError(three, InvalidBirthDate, IsZero(birth));
  }

  /** The one event that a domain method records, or its errors. */
  function DecideUser(s: UserState, cmd: UserCommand): UserDecision {
    match cmd
    case CreateUser(id, first, last, email, birth, now) =>
      var errors := CreationErrors(first, last, email, birth);
      if errors != [] then Invalid(errors) else Recorded(Event(id, now, WasCreated(first, last, birth, email)))
    case UpdateEmail(email, now) =>
      if email == "" then Invalid([InvalidEmail]) else Recorded(Event(s.id, now, EmailWasUpdated(email)))
  }

  /** The logs of a stream that creating a user and then updating its email write. */
  ghost predicate UserProduced(id: StreamID, log: seq<UserEvent>)
    decreases |log|
  {
    if log == [] then true
    else if |log| == 1 then
      exists cmd: UserCommand :: cmd.CreateUser? && cmd.id == id && DecideUser(ZERO_USER, cmd) == Recorded(log[0])
    else
      var front := log[..|log| - 1];
      && UserProduced(id, front)
      && exists cmd: UserCommand ::
           cmd.UpdateEmail? && DecideUser(Replay(USER, front).state, cmd) == Recorded(log[|log| - 1])
  }

  /** Such a log replays, names its stream in every event, and starts with its only creation. */
  lemma {:induction false} UserProducedMeaning(id: StreamID, log: seq<UserEvent>)
    requires UserProduced(id, log)
    ensures Replay(USER, log).ok
    ensures log != [] ==> Replay(USER, log).state.id == id
    ensures log != [] ==>
              var s := Replay(USER, log).state;
              s.firstName != "" && s.lastName != "" && s.email != "" && !IsZero(s.birthDate)
    ensures forall i :: 0 <= i < |log| ==>
              log[i].Event? && log[i].id == id && !log[i].kind.Other? && (log[i].kind.WasCreated? <==> i == 0)
    decreases |log|
  {
    if log != [] {
      var last := |log| - 1;
      assert log == log[..last] + [log[last]];
      UserProducedMeaning(id, log[..last]);
      FoldOne(USER, ZERO_USER, log[..last], log[last]);
      if last == 0 {
        var cmd: UserCommand :| cmd.CreateUser? && cmd.id == id && DecideUser(ZERO_USER, cmd) == Recorded(log[0]);
      }
    }
  }

  /** Exactly the unknown events do not apply. */
  lemma {:induction false} UserApplyFailsExactly(s: UserState, e: UserEvent)
    ensures ApplyUser(s, e).ok <==> e.Event? && !e.kind.Other?
    ensures ApplyUser(s, e).ok && e.kind.EmailWasUpdated? ==> ApplyUser(s, e).state == s.(email := e.kind.email)
    ensures ApplyUser(s, e).ok && e.kind.WasCreated? ==>
              ApplyUser(s, e).state
              == UserState(e.id, e.kind.firstName, e.kind.lastName, e.kind.birthDate, e.kind.email)
  {
  }

  lemma {:induction false} UserApplyIsAtomic()
    ensures AtomicApply(USER)
  {
  }

  /** Root coherence for users, in every run. */
  lemma {:induction false} UserRootCoherence(w: World<UserState, UserEvent>, start: nat, steps: seq<Step<UserEvent>>)
      returns (base: nat)
    requires w.reliable && CoherentAt(USER, w, start)
    requires Aggregates.Run(USER, w, steps).reliable && |Aggregates.Run(USER, w, steps).log| < WRAP
    ensures CoherentAt(USER, Aggregates.Run(USER, w, steps), base) && w.log <= Aggregates.Run(USER, w, steps).log
  {
    UserApplyIsAtomic();
    base := RootCoherence(USER, w, start, steps);
  }

  // ------------------------------------------------------------- serdes

  datatype ProtoKind =
    | ProtoWasCreated(firstName: string, lastName: string, birthDate: Date, email: string)
    | ProtoEmailWasUpdated(email: string)
    | ProtoUnset

  /** Encoded values: a user or an event message. A timestamp keeps the instant and no zone. */
  datatype Encoded =
    | ProtoUser(id: StreamID, firstName: string, lastName: string, birthDate: Date, email: string)
    | ProtoEvent(id: StreamID, recordTime: int, kind: ProtoKind)

  function SerializeUser(s: UserState): Option<Encoded> {
    Some(ProtoUser(s.id, s.firstName, s.lastName, TimeToDate(s.birthDate), s.email))
  }

  function DeserializeUser(p: Encoded): Option<UserState> {
    if p.ProtoUser? then Some(UserState(p.id, p.firstName, p.lastName, DateToTime(p.birthDate), p.email)) else None
  }

  function SerializeEvent(e: UserEvent): Option<Encoded> {
    match e
    case Foreign => None
    case Event(id, at, kind) =>
      match kind
      case WasCreated(first, last, birth, email) =>
        Some(ProtoEvent(id, at.nanos, ProtoWasCreated(first, last, TimeToDate(birth), email)))
      case EmailWasUpdated(email) => Some(ProtoEvent(id, at.nanos, ProtoEmailWasUpdated(email)))
      case Other => None
  }

  function DeserializeEvent(p: Encoded): Option<UserEvent> {
    if !p.ProtoEvent? then None
    else
      match p.kind
      case ProtoWasCreated(first, last, birth, email) =>
        Some(Event(p.id, Instant(p.recordTime, UTC), WasCreated(first, last, DateToTime(birth), email)))
      case ProtoEmailWasUpdated(email) => Some(Event(p.id, Instant(p.recordTime, UTC), EmailWasUpdated(email)))
      case ProtoUnset => None
  }

  /** Known events whose birth year fits 32 bits. */
  predicate EventFits(e: UserEvent) {
    e.Event? && !e.kind.Other? && (e.kind.WasCreated? ==> FitsInt32(e.kind.birthDate.year))
  }

  predicate UserFits(s: UserState) {
    FitsInt32(s.birthDate.year)
  }

  /** An event as it comes back: the record time in UTC, the birth date at midnight. */
  function EventBack(e: UserEvent): UserEvent {
    match e
    case Foreign => Foreign
    case Event(id, at, kind) =>
      Event(id, Instant(at.nanos, UTC), if kind.WasCreated? then kind.(birthDate := Midnight(kind.birthDate)) else kind)
  }

  function UserBack(s: UserState): UserState {
    s.(birthDate := Midnight(s.birthDate))
  }

  /** An event the aggregate knows. */
  predicate Known(e: UserEvent) {
    e.Event? && !e.kind.Other?
  }

  /** What comes back of an event and of a user, whatever their years. */
  function StoredEvent(e: UserEvent): UserEvent {
    match e
    case Foreign => Foreign
    case Event(id, at, kind) =>
      Event(id, Instant(at.nanos, UTC), if kind.WasCreated? then kind.(birthDate := Stored(kind.birthDate)) else kind)
  }

  function StoredUser(s: UserState): UserState {
    s.(birthDate := Stored(s.birthDate))
  }

  const USER_KIT: Kit<UserState, UserEvent, Encoded> := Kit(
    USER, (s: UserState) => s.id,
    Serde(SerializeUser, DeserializeUser), Serde(SerializeEvent, DeserializeEvent), "User",
    StoredEvent, StoredUser, Known, (s: UserState) => true)

  /** Exactly what can be encoded and decoded; the rest is an error either way. */
  lemma {:induction false} EncodableExactly(e: UserEvent, p: Encoded)
    ensures SerializeEvent(e).Some? <==> Known(e)
    ensures SerializeEvent(e).Some? ==> SerializeEvent(e).value.ProtoEvent?
    ensures DeserializeEvent(p).Some? <==> p.ProtoEvent? && !p.kind.ProtoUnset?
    ensures DeserializeUser(p).Some? <==> p.ProtoUser?
    ensures DeserializeEvent(p).Some? ==> Known(DeserializeEvent(p).value)
  {
  }

  /** Which fields the messages carry, and what they become when they are read. */
  lemma {:induction false} FieldsAreKept(s: UserState, e: UserEvent)
    requires Known(e)
    ensures var p := SerializeUser(s).value;
            var back := DeserializeUser(p).value;
            && p.ProtoUser? && p.id == s.id == back.id
            && p.firstName == s.firstName == back.firstName && p.lastName == s.lastName == back.lastName
            && p.email == s.email == back.email
            && p.birthDate == TimeToDate(s.birthDate) && back.birthDate == DateToTime(p.birthDate)
    ensures var p := SerializeEvent(e).value;
            var back := DeserializeEvent(p).value;
            && p.id == e.id == back.id && p.recordTime == e.recordTime.nanos == back.recordTime.nanos
            && back.recordTime.zone == UTC
            && p.kind.email == e.kind.email == back.kind.email
            && (e.kind.WasCreated? <==> p.kind.ProtoWasCreated?) && (e.kind.WasCreated? <==> back.kind.WasCreated?)
            && (e.kind.WasCreated? ==>
                  && p.kind.firstName == e.kind.firstName == back.kind.firstName
                  && p.kind.lastName == e.kind.lastName == back.kind.lastName
                  && p.kind.birthDate == TimeToDate(e.kind.birthDate)
                  && back.kind.birthDate == DateToTime(p.kind.birthDate))
  {
  }

  /** Exactly what the event serdes lose. */
  lemma {:induction false} EventRoundTrip(e: UserEvent)
    ensures EventFits(e) ==> SerializeEvent(e).Some? && DeserializeEvent(SerializeEvent(e).value) == Some(EventBack(e))
    ensures SerializeEvent(e).Some? && DeserializeEvent(SerializeEvent(e).value) == Some(EventBack(e)) ==> EventFits(e)
  {
    if e.Event? && e.kind.WasCreated? {
      DateRoundTrip(e.kind.birthDate);
    }
  }

  lemma {:induction false} UserRoundTrip(s: UserState)
    ensures SerializeUser(s).Some?
    ensures DeserializeUser(SerializeUser(s).value) == Some(UserBack(s)) <==> UserFits(s)
  {
    DateRoundTrip(s.birthDate);
  }

  lemma {:induction false} UserEventIsSound(e: UserEvent)
    ensures SoundMessage(USER_KIT, e)
  {
    if e.Event? && e.kind.WasCreated? {
      StoredTwice(e.kind.birthDate);
    }
  }

  lemma {:induction false} UserStateIsSound(s: UserState)
    ensures SoundState(USER_KIT, s)
  {
    StoredTwice(s.birthDate);
  }

  lemma {:induction false} UserApplyIsSound(s: UserState, e: UserEvent)
    ensures SoundApply(USER_KIT, s, e)
  {
  }

  /** The user serdes are a homomorphism of replay, whatever the years. */
  lemma {:induction false} UserSerdesAreSound()
    ensures Sound(USER_KIT)
  {
    forall e: UserEvent
      ensures SoundMessage(USER_KIT, e)
    {
      UserEventIsSound(e);
    }
    forall s: UserState
      ensures SoundState(USER_KIT, s)
    {
      UserStateIsSound(s);
    }
    forall s: UserState, e: UserEvent
      ensures SoundApply(USER_KIT, s, e)
    {
      UserApplyIsSound(s, e);
    }
    ZeroUserIsStored();
  }

  lemma {:induction false} ZeroUserIsStored()
    ensures StoredUser(ZERO_USER) == ZERO_USER
  {
    DateRoundTrip(ZERO_TIME);
  }

  /** Known events never fail to apply. */
  lemma {:induction false} KnownEventsReplay(log: seq<UserEvent>)
    requires forall i :: 0 <= i < |log| ==> Known(log[i])
    ensures Replay(USER, log).ok
  {
    if log != [] {
      KnownEventsReplay(log[..|log| - 1]);
    }
  }

  /**
   Serde is a replay homomorphism: for every list of known user events, whatever
   their years, decoding the encoded fold equals folding the decoded encoded
   events. Known events are exactly those that can be encoded.
   */
  lemma {:induction false} UserReplayHomomorphism(log: seq<UserEvent>, back: seq<UserEvent>)
    requires |back| == |log|
    requires forall i :: 0 <= i < |log| ==>
               SerializeEvent(log[i]).Some? && DeserializeEvent(SerializeEvent(log[i]).value) == Some(back[i])
    ensures Replay(USER, log).ok && Replay(USER, back).ok
    ensures DeserializeUser(SerializeUser(Replay(USER, log).state).value) == Some(Replay(USER, back).state)
  {
    UserSerdesAreSound();
    assert forall i :: 0 <= i < |log| ==> Known(log[i]);
    KnownEventsReplay(log);
    var batch := seq(|log|, i requires 0 <= i < |log| => Message(log[i], map[]));
    forall i | 0 <= i < |log|
      ensures back[i] == StoredEvent(log[i])
    {
      UserEventIsSound(log[i]);
    }
    assert Norms(USER_KIT, batch) == back;
    ReplayHomomorphism(USER_KIT, batch, log);
  }

  /**
   Loading a user from its snapshot gives what replaying the stored events gives:
   in every reachable database a user's row decodes to the fold of its stream's
   events up to the row's version, all of which decode.
   */
  lemma {:induction false} UserSnapshotsAgree(actions: seq<Action<UserEvent>>, clock: nat -> string, id: StreamID)
      returns (log: seq<UserEvent>)
    requires id in PgSnapshots.Run(USER_KIT, actions, clock).tables.aggregates
    ensures var t := PgSnapshots.Run(USER_KIT, actions, clock).tables;
            var row := t.aggregates[id];
            && TableInv(t)
            && |log| == row.version <= Header(t, id)
            && (forall v: Version {:trigger (id, v) in t.events} :: 1 <= v <= row.version ==>
                  (id, v) in t.events && DeserializeEvent(t.events[(id, v)].event) == Some(log[v - 1]))
            && Replay(USER, log).ok
            && DeserializeUser(row.state) == Some(Replay(USER, log).state)
  {
    UserSerdesAreSound();
    log := SnapshotsAgree(USER_KIT, actions, clock, id);
  }

  /**
   Two clients that create the same user, under different names: the one whose
   save is refused can save again, and the user's snapshot then names its own.
   */
  lemma {:induction false} UserSnapshotOverwritten(clock: nat -> string) returns (actions: seq<Action<UserEvent>>)
    ensures var w := PgSnapshots.Run(USER_KIT, actions, clock);
            && 0 in w.roots
            && SaveOf(USER_KIT, w.tables, w.roots[0], clock).SaveRefused?
            && var again := SaveOf(USER_KIT, w.tables, w.roots[0].(recorded := []), clock);
               again.SaveDone? && TableInv(again.tables) && 1 in again.tables.aggregates
               && !SnapshotOk(USER_KIT, again.tables, 1)
  {
    UserSerdesAreSound();
    var now := Instant(0, UTC);
    var a := Message(Event(1, now, WasCreated("a", "c", ZERO_TIME, "e")), map[]);
    var b := Message(Event(1, now, WasCreated("b", "c", ZERO_TIME, "e")), map[]);
    assert Created(USER_KIT, a).state.firstName != Created(USER_KIT, b).state.firstName;
    actions := SnapshotOverwritten(USER_KIT, a, b, clock);
  }
}
