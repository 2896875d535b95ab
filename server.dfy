/**
 * The executor of "send_reminder" tasks: it looks up the user's address and
 * the document, sends the reminder e-mail, and sends an SMS when the user has
 * a phone number.
 *
 * The transports are an `Outbox` object that records every send attempt; whether
 * an attempt fails is an input. The handler only reads the repository.
 */
module Server {
  import opened Wrappers
  import opened Models
  import CivilTime
  import Templates
  import Jobs
  import Db

  /** The subject line of every reminder e-mail. */
  const ReminderSubject: string := "Document Expiration Reminder"

  /** The error a payload that does not decode gives. */
  const BadPayload: string := "invalid task payload"

  /**
   * A send attempt, recorded by the arguments its text is built from: the
   * HTML body of an e-mail is `Templates.EmailTemplate(userName, documentName,
   * date)`, the text of an SMS is `SmsText`.
   */
  datatype Message =
    | Email(to: string, subject: string, userName: string, documentName: string, date: string)
    | Sms(to: string, documentName: string, date: string)

  /** The text of an SMS attempt. */
  function SmsText(m: Message): string
    requires m.Sms?
  {
    Templates.SMSMessage(m.documentName, m.date)
  }

  /** The send transports: every attempt is appended to `sent`, whether it fails or not. */
  class Outbox {
    var sent: seq<Message>

    constructor ()
      ensures sent == []
    {
      sent := [];
    }

    method SendEmail(to: string, subject: string, userName: string, documentName: string, date: string, fails: bool)
      returns (err: Option<string>)
      modifies this
      ensures sent == old(sent) + [Email(to, subject, userName, documentName, date)]
      ensures err.Some? <==> fails
    {
      sent := sent + [Email(to, subject, userName, documentName, date)];
      err := if fails then Some("email transport failed") else None;
    }

    method SendSMS(to: string, documentName: string, date: string, fails: bool) returns (err: Option<string>)
      modifies this
      ensures sent == old(sent) + [Sms(to, documentName, date)]
      ensures err.Some? <==> fails
    {
      sent := sent + [Sms(to, documentName, date)];
      err := if fails then Some("sms transport failed") else None;
    }
  }

  /** What one run of the handler returns and sends. */
  datatype Outcome = Outcome(err: Option<string>, sends: seq<Message>)

  /** The SMS a found phone lookup leads to: one message when the number is non-empty, none otherwise. */
  function SmsFor(phone: Result<string>, doc: Document): seq<Message>
  {
    if phone.Ok? && phone.value != "" then
      [Sms(phone.value, doc.name, CivilTime.FormatLongDate(doc.expirationDate))]
    else []
  }

  /** Reference definition of one handler run against the tables `users` and `documents`. */
  function ReminderRun(users: seq<User>, documents: seq<Document>, payload: Jobs.TaskPayload): Outcome
  {
    match payload
    case Undecodable => Outcome(Some(BadPayload), [])
    case Encoded(p) =>
      match Db.EmailOf(Db.FindUser(users, p.userId))
      case Err(e) => Outcome(Some(e), [])
      case Ok(address) =>
        match Db.DocumentResult(Db.FindDocument(documents, p.documentId))
        case Err(e) => Outcome(Some(e), [])
        case Ok(doc) =>
          var date := CivilTime.FormatLongDate(doc.expirationDate);
          Outcome(None, [Email(address, ReminderSubject, address, doc.name, date)]
                        + SmsFor(Db.PhoneOf(Db.FindUser(users, p.userId)), doc))
  }

  /**
   * The handler. It decodes the payload, looks the user's address and the
   * document up (returning the lookup's error if either fails), sends the
   * e-mail (a failure is only logged), and sends an SMS when the phone lookup
   * yields a non-empty number (its error and the SMS error are discarded).
   */
  method HandleSendReminder(repo: Db.Repository, outbox: Outbox, payload: Jobs.TaskPayload, emailFails: bool, smsFails: bool)
    returns (err: Option<string>)
    requires repo.Valid()
    modifies outbox
    ensures var o := ReminderRun(repo.users, repo.documents, payload);
      err == o.err && outbox.sent == old(outbox.sent) + o.sends
  {
    if payload.Undecodable? {
      return Some(BadPayload);
    }
    var p := payload.fields;
    var userEmail := repo.GetUserEmail(p.userId);
    if userEmail.Err? {
      return Some(userEmail.error);
    }
    var doc := repo.GetDocumentByID(p.documentId);
    if doc.Err? {
      return Some(doc.error);
    }
    var date := CivilTime.FormatLongDate(doc.value.expirationDate);
    var email := Email(userEmail.value, ReminderSubject, userEmail.value, doc.value.name, date);
    var emailErr := outbox.SendEmail(userEmail.value, ReminderSubject, userEmail.value, doc.value.name, date, emailFails);
    var userPhone := repo.GetUserPhoneNumber(p.userId);
    assert ReminderRun(repo.users, repo.documents, payload) == Outcome(None, [email] + SmsFor(userPhone, doc.value));
    if userPhone.Ok? && userPhone.value != "" {
      var smsErr := outbox.SendSMS(userPhone.value, doc.value.name, date, smsFails);
    }
    err := None;
  }

  /**
   * One worker step: the queue hands out a due task, and a "send_reminder"
   * task runs the handler, whose error and sends make up `ran`. A due task of
   * any other type has no handler here: it leaves the queue and `ran` is `None`.
   */
  method WorkerStep(queue: Jobs.TaskQueue, repo: Db.Repository, outbox: Outbox, now: Instant, emailFails: bool, smsFails: bool)
    returns (ran: Option<Outcome>)
    requires repo.Valid()
    modifies queue, outbox
    ensures ran.Some? ==> exists i :: 0 <= i < |old(queue.pending)| && old(queue.pending)[i].processAt <= now
                                      && old(queue.pending)[i].taskType == Jobs.SendReminder
                                      && ran.value == ReminderRun(repo.users, repo.documents, old(queue.pending)[i].payload)
                                      && queue.pending == old(queue.pending)[..i] + old(queue.pending)[i + 1..]
    ensures ran.None? ==> queue.pending == old(queue.pending)
                          || exists i :: 0 <= i < |old(queue.pending)| && old(queue.pending)[i].processAt <= now
                                         && old(queue.pending)[i].taskType != Jobs.SendReminder
                                         && queue.pending == old(queue.pending)[..i] + old(queue.pending)[i + 1..]
    ensures (forall t :: t in old(queue.pending) ==> t.processAt > now) ==> ran.None? && queue.pending == old(queue.pending)
    ensures (exists t :: t in old(queue.pending) && t.processAt <= now) ==> |queue.pending| == |old(queue.pending)| - 1
    ensures ran.Some? ==> outbox.sent == old(outbox.sent) + ran.value.sends
    ensures ran.None? ==> outbox.sent == old(outbox.sent)
  {
    var delivered := queue.Deliver(now);
    if delivered.Some? && delivered.value.taskType == Jobs.SendReminder {
      var before := outbox.sent;
      var err := HandleSendReminder(repo, outbox, delivered.value.payload, emailFails, smsFails);
      ran := Some(Outcome(err, outbox.sent[|before|..]));
    } else {
      ran := None;
    }
  }

  // ---------------------------------------------------------------------
  // Properties of a run.
  // ---------------------------------------------------------------------

  /** A run fails iff the payload does not decode, the user is missing or the document is missing; a failed run sends nothing. */
  lemma RunFailsOnlyOnLookups(users: seq<User>, documents: seq<Document>, payload: Jobs.TaskPayload)
    ensures var o := ReminderRun(users, documents, payload);
      && (o.err.Some? <==> payload.Undecodable?
                            || Db.FindUser(users, payload.fields.userId).None?
                            || Db.FindDocument(documents, payload.fields.documentId).None?)
      && (o.err.Some? ==> o.sends == [])
      && (payload.Undecodable? ==> o.err == Some(BadPayload))
      && (payload.Encoded? && Db.FindUser(users, payload.fields.userId).None? ==> o.err == Some("user does not exist"))
      && ((payload.Encoded? && Db.FindUser(users, payload.fields.userId).Some?
           && Db.FindDocument(documents, payload.fields.documentId).None?) ==> o.err == Some("document not found"))
  {
  }

  /**
   * A successful run sends the e-mail first, to the user's address, with the
   * fixed subject, greeting the address, naming the document and its
   * expiration day; then at most one SMS, which goes out iff the user has a
   * non-empty phone number, and carries the document name and the same day.
   */
  lemma RunSends(users: seq<User>, documents: seq<Document>, payload: Jobs.TaskPayload)
    requires payload.Encoded?
    requires Db.FindUser(users, payload.fields.userId).Some?
    requires Db.FindDocument(documents, payload.fields.documentId).Some?
    ensures var o := ReminderRun(users, documents, payload);
      var u := Db.FindUser(users, payload.fields.userId).value;
      var d := Db.FindDocument(documents, payload.fields.documentId).value;
      && o.err.None?
      && 1 <= |o.sends| <= 2
      && o.sends[0] == Email(u.email, ReminderSubject, u.email, d.name, CivilTime.FormatLongDate(d.expirationDate))
      && (|o.sends| == 2 <==> u.phoneNumber.Some? && u.phoneNumber.value != "")
      && (|o.sends| == 2 ==> o.sends[1] == Sms(u.phoneNumber.value, d.name, CivilTime.FormatLongDate(d.expirationDate)))
  {
    var u := Db.FindUser(users, payload.fields.userId).value;
    var d := Db.FindDocument(documents, payload.fields.documentId).value;
    var date := CivilTime.FormatLongDate(d.expirationDate);
    assert Db.EmailOf(Db.FindUser(users, payload.fields.userId)) == Ok(u.email);
    assert Db.DocumentResult(Db.FindDocument(documents, payload.fields.documentId)) == Ok(d);
    assert ReminderRun(users, documents, payload)
        == Outcome(None, [Email(u.email, ReminderSubject, u.email, d.name, date)] + SmsFor(Db.PhoneOf(Some(u)), d));
  }

  /**
   * Every SMS a run records goes to the owner's non-empty phone number and
   * names the stored document and its "January 2, 2006" date; its text is
   * `SmsText`, from which `Templates.SmsRoundTrip` reads both back.
   */
  lemma SmsCarriesArguments(users: seq<User>, documents: seq<Document>, payload: Jobs.TaskPayload)
    ensures forall m :: m in ReminderRun(users, documents, payload).sends && m.Sms? ==>
      && payload.Encoded?
      && Db.FindUser(users, payload.fields.userId).Some?
      && Db.FindDocument(documents, payload.fields.documentId).Some?
      && SmsOfStoredRows(users, documents, payload.fields, m)
  {
    if payload.Encoded? && Db.FindUser(users, payload.fields.userId).Some?
       && Db.FindDocument(documents, payload.fields.documentId).Some? {
      SuccessfulRunSms(users, documents, payload);
    } else {
      RunFailsOnlyOnLookups(users, documents, payload);
    }
  }

  /** `m` goes to the user's non-empty phone number and names the document and its long date. */
  predicate SmsOfStoredRows(users: seq<User>, documents: seq<Document>, p: Jobs.ReminderPayload, m: Message)
    requires Db.FindUser(users, p.userId).Some? && Db.FindDocument(documents, p.documentId).Some?
  {
    var u := Db.FindUser(users, p.userId).value;
    var d := Db.FindDocument(documents, p.documentId).value;
    && m.Sms?
    && u.phoneNumber == Some(m.to) && m.to != ""
    && m.documentName == d.name && m.date == CivilTime.FormatLongDate(d.expirationDate)
  }

  lemma SuccessfulRunSms(users: seq<User>, documents: seq<Document>, payload: Jobs.TaskPayload)
    requires payload.Encoded?
    requires Db.FindUser(users, payload.fields.userId).Some?
    requires Db.FindDocument(documents, payload.fields.documentId).Some?
    ensures forall m :: m in ReminderRun(users, documents, payload).sends && m.Sms? ==>
      SmsOfStoredRows(users, documents, payload.fields, m)
  {
    var sends := ReminderRun(users, documents, payload).sends;
    RunSends(users, documents, payload);
    forall m | m in sends && m.Sms?
      ensures SmsOfStoredRows(users, documents, payload.fields, m)
    {
      var i :| 0 <= i < |sends| && sends[i] == m;
      assert i == 1;
    }
  }

  /**
   * End to end: a task the scheduler built for a document that is still
   * stored, owned by a user that still exists, makes a run that succeeds
   * and e-mails that user about the document as it is stored now.
   */
  lemma ScheduledTaskNotifies(doc: Document, userId: Uuid, intervals: seq<ReminderInterval>, now: Instant, accepts: nat -> bool,
                              users: seq<User>, documents: seq<Document>, t: Jobs.Task)
    requires t in Jobs.Scheduled(doc, userId, intervals, now, accepts)
    requires Db.FindUser(users, userId).Some?
    requires Db.FindDocument(documents, doc.id).Some?
    ensures var o := ReminderRun(users, documents, t.payload);
      var stored := Db.FindDocument(documents, doc.id).value;
      && o.err.None?
      && o.sends[0].Email?
      && o.sends[0].to == Db.FindUser(users, userId).value.email
      && o.sends[0].documentName == stored.name
  {
    Jobs.ScheduledTasksWellFormed(doc, userId, intervals, now, accepts);
  }

  /**
   * Deleting a document leaves its queued tasks in place; when one of them
   * runs, the document lookup fails, so the run errs and sends nothing.
   */
  lemma DeletedDocumentTaskSendsNothing(users: seq<User>, documents: seq<Document>, documentId: Uuid, payload: Jobs.TaskPayload)
    requires payload.Encoded? && payload.fields.documentId == documentId
    ensures var o := ReminderRun(users, Db.WithoutDocument(documents, documentId), payload);
      o.err.Some? && o.sends == []
  {
    Db.WithoutDocumentKeepsOthers(documents, documentId);
  }
}
