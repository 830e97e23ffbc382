// Status enums shared by the models, and the date-time representation used throughout.
module Base {
  import opened Wrappers

  datatype SubmissionStatus = Pending | Processing | Completed | Failed | Warning

  datatype TimelinessClassification = OnTime | Late | LastMinuteRush | NoDeadline

  datatype UserRole = Professor | Admin | Student

  /** The enum's stored `value` string. */
  function StatusValue(s: SubmissionStatus): string
  {
    match s
    case Pending => "pending"
    case Processing => "processing"
    case Completed => "completed"
    case Failed => "failed"
    case Warning => "warning"
  }

  function TimelinessValue(t: TimelinessClassification): string
  {
    match t
    case OnTime => "on_time"
    case Late => "late"
    case LastMinuteRush => "last_minute_rush"
    case NoDeadline => "no_deadline"
  }

  /**
   * A Python `datetime` at one-second resolution: the wall-clock reading in seconds and,
   * when the value is timezone-aware, its UTC offset in seconds (None for a naive value).
   */
  datatype DateTime = DateTime(wall: int, offset: Option<int>)
  {
    predicate IsNaive() { offset.None? }

    /** The instant in UTC seconds; a naive value is read as UTC. */
    function Utc(): int
    {
      match offset
      case None => wall
      case Some(o) => wall - o
    }
  }

  /**
   * The timezone database: the UTC offset a named zone has at a given local wall-clock time
   * (`pytz.timezone(name).localize(t)`), or None when the name is unknown.
   */
  type ZoneTable = (string, int) -> Option<int>
}
