/** The records the backend stores and analyses: a study session (the shape of
    backend/models/Study.js), a user, and the calendar arithmetic every
    analytics view uses to turn instants into day numbers. */
module StudyModel {

  datatype Option<T> = None | Some(value: T)

  function GetOr<T>(o: Option<T>, default: T): T
  {
    if o.Some? then o.value else default
  }

  /** The stored status. `Unset` is a record written through the in-process store
      without a status: that path applies no 'Pending' default. */
  datatype Status = Pending | InProgress | Completed | Unset

  /** The schema default of the durable store: a missing status becomes 'Pending'. */
  function DefaultStatus(s: Status): (r: Status)
    ensures r != Unset
    ensures s != Unset ==> r == s
  {
    if s == Unset then Pending else s
  }

  /** A date-valued field: missing, present but unparseable, or an instant given in
      milliseconds since 1970-01-01T00:00:00Z. */
  datatype DateField = Absent | Invalid | At(stamp: int)

  /** One study session. Text that is missing is the empty string (every use in the
      source treats a missing and an empty title or subject alike), and `duration`
      is in minutes, already coerced the way `Number(d) || 0` does. */
  datatype Study = Study(
    id: string,
    user: string,
    title: string,
    subject: string,
    description: string,
    duration: int,
    status: Status,
    date: DateField,
    createdAt: DateField)

  /** A partial record: the fields of a request body or of an object spread into a
      record; `None` means the key is not present. */
  datatype StudyPatch = StudyPatch(
    id: Option<string>,
    user: Option<string>,
    title: Option<string>,
    subject: Option<string>,
    description: Option<string>,
    duration: Option<int>,
    status: Option<Status>,
    date: Option<DateField>,
    createdAt: Option<DateField>)

  const EmptyPatch := StudyPatch(None, None, None, None, None, None, None, None, None)

  /** `{ ...s, ...p }`: every key present in `p` replaces the field of `s`. */
  function Merge(s: Study, p: StudyPatch): Study
  {
    Study(
      GetOr(p.id, s.id),
      GetOr(p.user, s.user),
      GetOr(p.title, s.title),
      GetOr(p.subject, s.subject),
      GetOr(p.description, s.description),
      GetOr(p.duration, s.duration),
      GetOr(p.status, s.status),
      GetOr(p.date, s.date),
      GetOr(p.createdAt, s.createdAt))
  }

  function OwnedBy(user: string): Study -> bool
  {
    (s: Study) => s.user == user
  }

  function IsCompleted(): Study -> bool
  {
    (s: Study) => s.status == Completed
  }

  datatype Role = RegularUser | Admin

  /** A user as the in-process store keeps it, password hash included. */
  datatype User = User(id: string, name: string, email: string, password: string, role: Option<Role>)

  /** A user as the admin views show it: the type has no password field. */
  datatype UserView = UserView(id: string, name: string, email: string, role: Option<Role>)

  /** `({ password, ...rest }) => rest` */
  function WithoutPassword(u: User): (v: UserView)
    ensures v.id == u.id && v.name == u.name && v.email == u.email && v.role == u.role
  {
    UserView(u.id, u.name, u.email, u.role)
  }

  // ----- Calendar arithmetic -----

  const DayMs: int := 86_400_000

  /** The day number (days since 1970-01-01) of an instant in a zone whose offset
      from UTC is `offsetMs`; Dafny's `/` floors for a positive divisor. */
  function LocalDay(stamp: int, offsetMs: int): int
  {
    (stamp + offsetMs) / DayMs
  }

  /** The day number of an instant in UTC, as `toISOString().split('T')[0]` keys it. */
  function UtcDay(stamp: int): int
  {
    stamp / DayMs
  }

  /** Day of the week of a day number, 0 = Sunday .. 6 = Saturday (day 0 was a Thursday). */
  function Weekday(day: int): (w: int)
    ensures 0 <= w < 7
  {
    (day + 4) % 7
  }

  predicate IsWeekend(day: int)
  {
    Weekday(day) == 0 || Weekday(day) == 6
  }

  /** The local day a session is charted on: `s.date || s.createdAt`, so `createdAt`
      is used only when `date` is missing, and an unparseable value gives no day. */
  function ChartDay(s: Study, offsetMs: int): Option<int>
  {
    var source := if s.date == Absent then s.createdAt else s.date;
    if source.At? then Some(LocalDay(source.stamp, offsetMs)) else None
  }
}
