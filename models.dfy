/**
 * The rows of the four tables the reminder pipeline reads and writes
 * (users, documents, reminder_intervals, document_reminders).
 * Identifiers are the textual form of the UUIDs; instants are whole
 * seconds since the Unix epoch, so sub-second precision is dropped.
 */
module Models {
  import opened Wrappers

  type Uuid = string

  /** An absolute instant: seconds since 1970-01-01T00:00:00Z. */
  type Instant = int

  datatype User = User(
    id: Uuid,
    email: string,
    password: string,
    phoneNumber: Option<string>,
    name: string,
    createdAt: Instant,
    updatedAt: Instant)

  datatype Document = Document(
    id: Uuid,
    userId: Uuid,
    name: string,
    description: Option<string>,
    identifier: Option<string>,
    expirationDate: Instant,
    timezone: string,
    attachmentUrl: Option<string>,
    createdAt: Instant,
    updatedAt: Instant)

  /** A catalog entry: a lead time of `daysBefore` days, addressed by the short code `idLabel`. */
  datatype ReminderInterval = ReminderInterval(
    id: int,
    labelText: string,
    daysBefore: int,
    idLabel: string)

  /** A binding of one document to one catalog interval. */
  datatype DocumentReminder = DocumentReminder(
    id: Uuid,
    documentId: string,
    reminderIntervalId: int,
    enabled: bool,
    sentAt: Option<Instant>)
}
