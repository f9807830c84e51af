/**
 * The records the client works with. `Date` values that are only stored or
 * compared are timestamps in milliseconds since the epoch; calendar dates,
 * which are read back by their local day, month and year, are kept as those
 * local fields.
 */
module Types {

  datatype Option<T> = None | Some(value: T)

  /** Milliseconds since the epoch, as `Date.getTime()` returns. */
  type Timestamp = int

  /**
   * A `Date` read in local time: year, month 0..11, day 1..31 and the
   * milliseconds elapsed since local midnight.
   */
  datatype LocalDateTime = LocalDateTime(year: int, month: int, day: int, msOfDay: int)

  datatype User = User(
    id: string,
    name: string,
    email: string,
    college: string,
    avatar: Option<string>,
    bio: Option<string>,
    department: Option<string>,
    year: Option<string>,
    phone: Option<string>,
    isRepresentative: Option<bool>)

  datatype Peer = Peer(id: string, name: string, subject: string, avatar: string, tags: seq<string>)

  datatype StudyGroup = StudyGroup(
    id: string,
    title: string,
    description: string,
    membersCount: int,
    subject: string,
    isLive: bool,
    scheduledTime: Option<Timestamp>,
    hostId: Option<string>)

  /** `NotificationType`, plus the 'alert' kind the protected-route effect posts. */
  datatype NotificationType = Message | Invite | Follow | Alert

  datatype AppNotification = AppNotification(
    id: string,
    kind: NotificationType,
    title: string,
    message: string,
    timestamp: Timestamp,
    isRead: bool,
    link: Option<string>)

  datatype ResourceType = PDF | Notes | PYQ | Lab

  /** The string a `Resource.type` holds. */
  function ResourceTypeName(t: ResourceType): string
  {
    match t
    case PDF => "PDF"
    case Notes => "Notes"
    case PYQ => "PYQ"
    case Lab => "Lab"
  }

  datatype Resource = Resource(
    id: string,
    title: string,
    department: string,
    year: string,
    kind: ResourceType,
    size: string,
    downloads: int,
    author: string)

  datatype SyllabusItem = SyllabusItem(
    id: string,
    subject: string,
    topics: seq<string>,
    department: string,
    year: string,
    semester: string)

  datatype EventType = Academic | Cultural | Technical | Sports | Holiday

  datatype CalendarEvent = CalendarEvent(
    id: string,
    title: string,
    description: string,
    date: LocalDateTime,
    eventType: EventType,
    createdBy: string,
    createdAt: Timestamp)

  datatype AppTab = Home | Peers | Groups | AiTutor | Resources | CampusHub | SyllabusTracker | AotCalendar
}
