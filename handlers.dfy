/**
 * The decision logic of the HTTP handlers that feed the reminder pipeline:
 * registering a user, creating, reading, updating and deleting a document,
 * and toggling one of its reminders. Each handler is a method of `Handler`,
 * which holds the repository and the task queue; the HTTP layer is reduced to
 * the status code and the parts of the response body that carry data.
 *
 * Inputs the code obtains from libraries are parameters: a request body that
 * fails to decode is `None`, the clock is `now`, fresh UUIDs come from
 * `newId`/`bindingId`, the password hash and the signed token are `Option`s
 * (`None` when the library fails), and the queue's answers are `accepts`.
 */
module Api {
  import opened Wrappers
  import opened Models
  import CivilTime
  import Jobs
  import Db
  import Auth

  const StatusOK: int := 200
  const StatusCreated: int := 201
  const StatusNoContent: int := 204
  const StatusBadRequest: int := 400
  const StatusUnauthorized: int := 401
  const StatusForbidden: int := 403
  const StatusNotFound: int := 404
  const StatusConflict: int := 409
  const StatusInternalError: int := 500

  /** The body of a create or update request. A missing expiration decodes to the zero time. */
  datatype DocumentRequest = DocumentRequest(
    name: string,
    description: Option<string>,
    identifier: Option<string>,
    expirationDate: Instant,
    timezone: string,
    attachmentUrl: Option<string>,
    reminders: seq<string>)

  /** The body of a registration request. */
  datatype UserRequest = UserRequest(email: string, password: string, name: string, phoneNumber: Option<string>)

  /** The body of a toggle request: the interval's code and the new flag. */
  datatype ToggleRequest = ToggleRequest(intervalCode: string, enabled: bool)

  /** A reminder interval as a response lists it: its code and its label. */
  datatype IntervalView = IntervalView(id: string, labelText: string)

  function View(interval: ReminderInterval): IntervalView
  {
    IntervalView(interval.idLabel, interval.labelText)
  }

  /** The response list of a sequence of intervals, in order. */
  function Views(intervals: seq<ReminderInterval>): (r: seq<IntervalView>)
    ensures |r| == |intervals|
    ensures forall i :: 0 <= i < |intervals| ==> r[i] == View(intervals[i])
  {
    if intervals == [] then [] else Views(intervals[..|intervals| - 1]) + [View(intervals[|intervals| - 1])]
  }

  // ---------------------------------------------------------------------
  // The id and ownership guard shared by get, update, delete and toggle.
  // ---------------------------------------------------------------------

  datatype Access = Denied(status: int) | Granted(doc: Document, userId: Uuid)

  /**
   * The guard, in the order the handlers check it: a usable path id, a user
   * id in the context, that user's existence, the document's existence, and
   * that the document is the user's.
   */
  function CheckAccess(users: seq<User>, documents: seq<Document>, documentId: string, ctx: Auth.Context): Access
  {
    if documentId == "" || documentId == "undefined" then Denied(StatusBadRequest)
    else match Auth.GetUserIDFromContext(ctx)
      case Err(_) => Denied(StatusUnauthorized)
      case Ok(userId) =>
        if Db.FindUser(users, userId).None? then Denied(StatusNotFound)
        else match Db.FindDocument(documents, documentId)
          case None => Denied(StatusNotFound)
          case Some(doc) => if doc.userId != userId then Denied(StatusForbidden) else Granted(doc, userId)
  }

  // ---------------------------------------------------------------------
  // The field merge of an update.
  // ---------------------------------------------------------------------

  /** Each field the request supplies (non-empty string, present pointer, non-zero time) replaces the stored one. */
  function Merge(doc: Document, req: DocumentRequest): Document
  {
    doc.(name := if req.name != "" then req.name else doc.name,
         description := if req.description.Some? then req.description else doc.description,
         identifier := if req.identifier.Some? then req.identifier else doc.identifier,
         expirationDate := if req.expirationDate != CivilTime.ZeroTime then req.expirationDate else doc.expirationDate,
         timezone := if req.timezone != "" then req.timezone else doc.timezone,
         attachmentUrl := if req.attachmentUrl.Some? then req.attachmentUrl else doc.attachmentUrl)
  }

  /** The request that supplies no field. */
  function EmptyRequest(reminders: seq<string>): DocumentRequest
  {
    DocumentRequest("", None, None, CivilTime.ZeroTime, "", None, reminders)
  }

  /** The same request made again of a merged document supplies the same values. */
  function AsRequest(doc: Document, reminders: seq<string>): DocumentRequest
  {
    DocumentRequest(doc.name, doc.description, doc.identifier, doc.expirationDate, doc.timezone, doc.attachmentUrl, reminders)
  }

  // ---------------------------------------------------------------------
  // Create.
  // ---------------------------------------------------------------------

  /** Name, expiration and timezone are all supplied. */
  predicate Complete(req: DocumentRequest)
  {
    req.name != "" && req.expirationDate != CivilTime.ZeroTime && req.timezone != ""
  }

  /** Why a create request is refused before anything is written, if it is. */
  function CreateRejection(users: seq<User>, ctx: Auth.Context, body: Option<DocumentRequest>): Option<int>
  {
    if body.None? then Some(StatusBadRequest)
    else match Auth.GetUserIDFromContext(ctx)
      case Err(_) => Some(StatusUnauthorized)
      case Ok(userId) =>
        if Db.FindUser(users, userId).None? then Some(StatusNotFound)
        else if !Complete(body.value) then Some(StatusBadRequest)
        else None
  }

  /** The document row a create request asks for; the database stamps both timestamps. */
  function NewDocument(req: DocumentRequest, id: Uuid, userId: Uuid, now: Instant): Document
  {
    Document(id, userId, req.name, req.description, req.identifier, req.expirationDate, req.timezone, req.attachmentUrl, now, now)
  }

  /** The binding rows one request inserts, one per resolved interval, enabled and unsent; the i-th takes id `bindingId(i)`. */
  function NewBindings(documentId: string, intervals: seq<ReminderInterval>, bindingId: nat -> Uuid): seq<DocumentReminder>
  {
    if intervals == [] then []
    else
      var k := |intervals| - 1;
      NewBindings(documentId, intervals[..k], bindingId) + [DocumentReminder(bindingId(k), documentId, intervals[k].id, true, None)]
  }

  /** The first `n` binding ids are free in `existing` and pairwise distinct. */
  predicate FreshIds(existing: seq<DocumentReminder>, bindingId: nat -> Uuid, n: nat)
  {
    forall i: nat :: i < n ==> (forall b :: b in existing ==> b.id != bindingId(i))
                               && (forall j: nat :: j < i ==> bindingId(j) != bindingId(i))
  }

  /**
   * `n` of `total` bindings go in before the first insert that fails: the first
   * `n` fresh ids are unused and distinct, and, when `n < total`, the next is not.
   */
  predicate FirstCollision(existing: seq<DocumentReminder>, bindingId: nat -> Uuid, n: nat, total: nat)
  {
    n <= total && FreshIds(existing, bindingId, n) && (n < total ==> !FreshIds(existing, bindingId, n + 1))
  }

  /** The reminders a read lists: for each binding in order, its catalog interval; a binding with no interval is skipped. */
  function BoundIntervals(catalog: seq<ReminderInterval>, bindings: seq<DocumentReminder>): seq<IntervalView>
  {
    if bindings == [] then []
    else
      var k := |bindings| - 1;
      var earlier := BoundIntervals(catalog, bindings[..k]);
      match Db.FindInterval(catalog, bindings[k].reminderIntervalId)
      case None => earlier
      case Some(interval) => earlier + [View(interval)]
  }

  /** Why a registration is refused, if it is, and by which status. */
  function RegisterRejection(users: seq<User>, body: Option<UserRequest>, hashed: Option<string>): Option<int>
  {
    if body.None? then Some(StatusBadRequest)
    else if hashed.None? then Some(StatusInternalError)
    else if body.value.email == "" || body.value.password == "" || body.value.name == "" then Some(StatusBadRequest)
    else if exists u :: u in users && u.email == body.value.email then Some(StatusConflict)
    else None
  }

  class Handler {
    const repo: Db.Repository
    /** The task queue the scheduler writes to. */
    const queue: Jobs.TaskQueue

    constructor (repo: Db.Repository, queue: Jobs.TaskQueue)
      ensures this.repo == repo && this.queue == queue
    {
      this.repo := repo;
      this.queue := queue;
    }

    /** The guard, by the repository's lookups. */
    method Authorize(documentId: string, ctx: Auth.Context) returns (a: Access)
      requires repo.Valid()
      ensures a == CheckAccess(repo.users, repo.documents, documentId, ctx)
    {
      if documentId == "" || documentId == "undefined" {
        return Denied(StatusBadRequest);
      }
      var userId := Auth.GetUserIDFromContext(ctx);
      if userId.Err? {
        return Denied(StatusUnauthorized);
      }
      var err := repo.CheckUserExistsById(userId.value);
      if err.Some? {
        return Denied(StatusNotFound);
      }
      var doc := repo.GetDocumentByID(documentId);
      if doc.Err? {
        return Denied(StatusNotFound);
      }
      if doc.value.userId != userId.value {
        return Denied(StatusForbidden);
      }
      a := Granted(doc.value, userId.value);
    }

    /**
     * Inserts one enabled, unsent binding of `documentId` per interval, in
     * order, and stops at the first insert that fails; `inserted` counts the
     * rows written.
     */
    method InsertBindings(documentId: string, intervals: seq<ReminderInterval>, bindingId: nat -> Uuid)
      returns (ok: bool, inserted: nat)
      requires repo.Valid()
      modifies repo
      ensures repo.Valid()
      ensures repo.users == old(repo.users) && repo.documents == old(repo.documents)
      ensures inserted <= |intervals|
      ensures repo.bindings == old(repo.bindings) + NewBindings(documentId, intervals[..inserted], bindingId)
      ensures ok <==> inserted == |intervals|
      ensures ok <==> FreshIds(old(repo.bindings), bindingId, |intervals|)
      ensures FirstCollision(old(repo.bindings), bindingId, inserted, |intervals|)
    {
      var i := 0;
      while i < |intervals|
        invariant 0 <= i <= |intervals|
        invariant repo.Valid()
        invariant repo.users == old(repo.users) && repo.documents == old(repo.documents)
        invariant repo.bindings == old(repo.bindings) + NewBindings(documentId, intervals[..i], bindingId)
        invariant FreshIds(old(repo.bindings), bindingId, i)
      {
        assert intervals[..i + 1][..i] == intervals[..i];
        FreshStep(old(repo.bindings), documentId, intervals, bindingId, i);
        var r := repo.SetDocumentReminders(documentId, DocumentReminder(bindingId(i), documentId, intervals[i].id, true, None));
        if r.Err? {
          assert !FreshIds(old(repo.bindings), bindingId, i + 1);
          return false, i;
        }
        i := i + 1;
      }
      assert intervals[..i] == intervals;
      ok, inserted := true, i;
    }

    /**
     * POST /documents. Checks the body, the caller and the required fields,
     * inserts the document, resolves the requested codes, inserts one binding
     * per resolved interval and, when all succeeded, schedules one reminder
     * per resolved interval. A failure after the document insert leaves what
     * was written; nothing is scheduled then.
     */
    method CreateDocument(ctx: Auth.Context, body: Option<DocumentRequest>, newId: Uuid, bindingId: nat -> Uuid,
                          now: Instant, accepts: nat -> bool)
      returns (status: int, reminders: seq<IntervalView>, expiration: string)
      requires repo.Valid()
      modifies repo, queue
      ensures repo.Valid()
      ensures repo.users == old(repo.users)
      ensures CreateRejection(old(repo.users), ctx, body).Some? ==>
        && status == CreateRejection(old(repo.users), ctx, body).value
        && repo.documents == old(repo.documents) && repo.bindings == old(repo.bindings)
      ensures CreateRejection(old(repo.users), ctx, body).None? ==>
        var userId := Auth.GetUserIDFromContext(ctx).value;
        var req := body.value;
        var stored := NewDocument(req, newId, userId, now);
        var intervals := Db.Whitelist(repo.catalog, req.reminders);
        && (status == StatusInternalError || status == StatusCreated)
        && ((exists d :: d in old(repo.documents) && d.id == newId) ==>
              status == StatusInternalError && repo.documents == old(repo.documents) && repo.bindings == old(repo.bindings))
        && ((forall d :: d in old(repo.documents) ==> d.id != newId) ==>
              && repo.documents == old(repo.documents) + [stored]
              && (status == StatusCreated <==> FreshIds(old(repo.bindings), bindingId, |intervals|))
              && (exists n :: 0 <= n <= |intervals| && FirstCollision(old(repo.bindings), bindingId, n, |intervals|)
                            && repo.bindings == old(repo.bindings) + NewBindings(newId, intervals[..n], bindingId)))
        && (status == StatusCreated ==>
              && repo.bindings == old(repo.bindings) + NewBindings(newId, intervals, bindingId)
              && queue.pending == old(queue.pending) + Jobs.Scheduled(stored, userId, intervals, now, accepts)
              && reminders == Views(intervals)
              && expiration == CivilTime.FormatShortDate(req.expirationDate))
      ensures status != StatusCreated ==> queue.pending == old(queue.pending)
    {
      reminders, expiration := [], "";
      if body.None? {
        return StatusBadRequest, reminders, expiration;
      }
      var req := body.value;
      var userId := Auth.GetUserIDFromContext(ctx);
      if userId.Err? {
        return StatusUnauthorized, reminders, expiration;
      }
      var err := repo.CheckUserExistsById(userId.value);
      if err.Some? {
        return StatusNotFound, reminders, expiration;
      }
      if req.name == "" || req.expirationDate == CivilTime.ZeroTime || req.timezone == "" {
        return StatusBadRequest, reminders, expiration;
      }
      var created := repo.CreateDocument(NewDocument(req, newId, userId.value, now), now);
      if created.Err? {
        return StatusInternalError, reminders, expiration;
      }
      var intervals := repo.GetReminderIntervalsFromIdLabels(req.reminders);
      var ok, inserted := InsertBindings(newId, intervals, bindingId);
      if !ok {
        return StatusInternalError, reminders, expiration;
      }
      assert intervals[..inserted] == intervals;
      reminders := Views(intervals);
      expiration := CivilTime.FormatShortDate(req.expirationDate);
      Jobs.ScheduleReminders(queue, created.value, userId.value, intervals, now, accepts);
      status := StatusCreated;
    }

    /**
     * GET /documents/{id}. After the guard, lists the document's bindings as
     * their catalog intervals, enabled or not.
     */
    method GetDocument(documentId: string, ctx: Auth.Context) returns (status: int, doc: Option<Document>, reminders: seq<IntervalView>)
      requires repo.Valid()
      ensures var a := CheckAccess(repo.users, repo.documents, documentId, ctx);
        && (a.Denied? ==> status == a.status && doc == None)
        && (a.Granted? ==> status == StatusOK && doc == Some(a.doc)
                           && reminders == BoundIntervals(repo.catalog, Db.BindingsOf(repo.bindings, documentId)))
    {
      var a := Authorize(documentId, ctx);
      if a.Denied? {
        return a.status, None, [];
      }
      var bindings := repo.GetDocumentRemindersByDocumentID(documentId);
      reminders := [];
      var i := 0;
      while i < |bindings|
        invariant 0 <= i <= |bindings|
        invariant reminders == BoundIntervals(repo.catalog, bindings[..i])
      {
        assert bindings[..i + 1][..i] == bindings[..i];
        var interval := repo.GetReminderIntervalByID(bindings[i].reminderIntervalId);
        if interval.Ok? {
          reminders := reminders + [View(interval.value)];
        }
        i := i + 1;
      }
      assert bindings[..i] == bindings;
      status, doc := StatusOK, Some(a.doc);
    }

    /**
     * PUT /documents/{id}. After the guard and the body check, writes the
     * merged document, then inserts a binding per resolved code. It never
     * schedules, never disables and never removes a binding.
     */
    method UpdateDocument(documentId: string, ctx: Auth.Context, body: Option<DocumentRequest>, bindingId: nat -> Uuid, now: Instant)
      returns (status: int, reminders: seq<IntervalView>)
      requires repo.Valid()
      modifies repo
      ensures repo.Valid()
      ensures repo.users == old(repo.users)
      ensures queue.pending == old(queue.pending)
      ensures var a := CheckAccess(old(repo.users), old(repo.documents), documentId, ctx);
        && (a.Denied? ==> status == a.status && repo.documents == old(repo.documents) && repo.bindings == old(repo.bindings))
        && (a.Granted? && body.None? ==>
              status == StatusBadRequest && repo.documents == old(repo.documents) && repo.bindings == old(repo.bindings))
        && (a.Granted? && body.Some? ==>
              var intervals := Db.Whitelist(repo.catalog, body.value.reminders);
              && repo.documents == Db.UpdatedDocuments(old(repo.documents), Merge(a.doc, body.value), now)
              && (status == StatusOK || status == StatusInternalError)
              && (status == StatusOK <==> FreshIds(old(repo.bindings), bindingId, |intervals|))
              && (exists n :: 0 <= n <= |intervals| && FirstCollision(old(repo.bindings), bindingId, n, |intervals|)
                            && repo.bindings == old(repo.bindings) + NewBindings(a.doc.id, intervals[..n], bindingId))
              && (status == StatusOK ==>
                    repo.bindings == old(repo.bindings) + NewBindings(a.doc.id, intervals, bindingId) && reminders == Views(intervals)))
    {
      reminders := [];
      var a := Authorize(documentId, ctx);
      if a.Denied? {
        return a.status, reminders;
      }
      if body.None? {
        return StatusBadRequest, reminders;
      }
      var req := body.value;
      var merged := Merge(a.doc, req);
      var err := repo.UpdateDocument(merged, now);
      if err.Some? {
        assert false;
        return StatusInternalError, reminders;
      }
      var intervals := repo.GetReminderIntervalsFromIdLabels(req.reminders);
      var ok, inserted := InsertBindings(a.doc.id, intervals, bindingId);
      if !ok {
        return StatusInternalError, reminders;
      }
      assert intervals[..inserted] == intervals;
      reminders := Views(intervals);
      status := StatusOK;
    }

    /** DELETE /documents/{id}. After the guard, removes the document row; its bindings and queued tasks stay. */
    method DeleteDocument(documentId: string, ctx: Auth.Context) returns (status: int)
      requires repo.Valid()
      modifies repo
      ensures repo.Valid()
      ensures repo.users == old(repo.users) && repo.bindings == old(repo.bindings)
      ensures queue.pending == old(queue.pending)
      ensures var a := CheckAccess(old(repo.users), old(repo.documents), documentId, ctx);
        && (a.Denied? ==> status == a.status && repo.documents == old(repo.documents))
        && (a.Granted? ==> status == StatusNoContent && repo.documents == Db.WithoutDocument(old(repo.documents), documentId))
    {
      var a := Authorize(documentId, ctx);
      if a.Denied? {
        return a.status;
      }
      var err := repo.DeleteDocument(documentId);
      if err.Some? {
        assert false;
        return StatusInternalError;
      }
      status := StatusNoContent;
    }

    /**
     * PATCH /documents/{id}/reminders. After the guard and the body check,
     * resolves the one code; an unknown code is 404, otherwise the bindings of
     * the document and the first resolved interval are toggled. The queue is
     * left as it is, whichever way the flag goes.
     */
    method ToggleDocumentReminder(documentId: string, ctx: Auth.Context, body: Option<ToggleRequest>) returns (status: int)
      requires repo.Valid()
      modifies repo
      ensures repo.Valid()
      ensures repo.users == old(repo.users) && repo.documents == old(repo.documents)
      ensures queue.pending == old(queue.pending)
      ensures var a := CheckAccess(old(repo.users), old(repo.documents), documentId, ctx);
        && (a.Denied? ==> status == a.status && repo.bindings == old(repo.bindings))
        && (a.Granted? && body.None? ==> status == StatusBadRequest && repo.bindings == old(repo.bindings))
        && (a.Granted? && body.Some? ==>
              var resolved := Db.Whitelist(repo.catalog, [body.value.intervalCode]);
              && (resolved == [] ==> status == StatusNotFound && repo.bindings == old(repo.bindings))
              && (resolved != [] ==>
                    && repo.bindings == Db.Toggled(old(repo.bindings), a.doc.id, resolved[0].id, body.value.enabled)
                    && (status == StatusOK <==> exists b :: b in old(repo.bindings) && Db.Binds(b, a.doc.id, resolved[0].id))
                    && (status == StatusOK || status == StatusInternalError)))
    {
      var a := Authorize(documentId, ctx);
      if a.Denied? {
        return a.status;
      }
      if body.None? {
        return StatusBadRequest;
      }
      var intervals := repo.GetReminderIntervalsFromIdLabels([body.value.intervalCode]);
      if |intervals| == 0 {
        return StatusNotFound;
      }
      var err := repo.ToggleDocumentReminder(a.doc.id, intervals[0].id, body.value.enabled);
      if err.Some? {
        return StatusInternalError;
      }
      status := StatusOK;
    }

    /**
     * POST /auth/register. The password is hashed before the fields are
     * checked; a missing field is 400 and a taken e-mail 409. The user row
     * stays even when signing the token then fails.
     */
    method Register(body: Option<UserRequest>, hashed: Option<string>, newId: Uuid, token: Option<string>, now: Instant)
      returns (status: int)
      requires repo.Valid()
      modifies repo
      ensures repo.Valid()
      ensures repo.documents == old(repo.documents) && repo.bindings == old(repo.bindings)
      ensures queue.pending == old(queue.pending)
      ensures var rejection := RegisterRejection(old(repo.users), body, hashed);
        && (rejection.Some? ==> status == rejection.value && repo.users == old(repo.users))
        && (rejection.None? ==>
              var req := body.value;
              var user := User(newId, req.email, hashed.value, req.phoneNumber, req.name, now, now);
              if exists u :: u in old(repo.users) && u.id == newId then
                status == StatusInternalError && repo.users == old(repo.users)
              else
                && repo.users == old(repo.users) + [user]
                && status == if token.Some? then StatusCreated else StatusInternalError)
    {
      if body.None? {
        return StatusBadRequest;
      }
      if hashed.None? {
        return StatusInternalError;
      }
      var req := body.value;
      if req.email == "" || req.password == "" || req.name == "" {
        return StatusBadRequest;
      }
      var lookup := repo.CheckUserExistsByEmail(req.email);
      if lookup.None? {
        return StatusConflict;
      }
      var err := repo.CreateUser(User(newId, req.email, hashed.value, req.phoneNumber, req.name, now, now), now);
      if err.Some? {
        return StatusInternalError;
      }
      if token.None? {
        return StatusInternalError;
      }
      status := StatusCreated;
    }
  }

  // ---------------------------------------------------------------------
  // Properties.
  // ---------------------------------------------------------------------

  /** The i-th inserted binding is the i-th interval's: enabled, unsent, for this document, with the i-th fresh id. */
  lemma {:induction false} NewBindingsShape(documentId: string, intervals: seq<ReminderInterval>, bindingId: nat -> Uuid)
    ensures var r := NewBindings(documentId, intervals, bindingId);
      && |r| == |intervals|
      && forall i :: 0 <= i < |intervals| ==> r[i] == DocumentReminder(bindingId(i), documentId, intervals[i].id, true, None)
  {
    if intervals != [] {
      var k := |intervals| - 1;
      NewBindingsShape(documentId, intervals[..k], bindingId);
    }
  }

  /** The next binding id is usable, given the rows written so far, iff the first `i + 1` ids are fresh. */
  lemma FreshStep(existing: seq<DocumentReminder>, documentId: string, intervals: seq<ReminderInterval>, bindingId: nat -> Uuid, i: nat)
    requires i < |intervals|
    requires FreshIds(existing, bindingId, i)
    ensures (forall b :: b in existing + NewBindings(documentId, intervals[..i], bindingId) ==> b.id != bindingId(i))
            <==> FreshIds(existing, bindingId, i + 1)
  {
    var written := NewBindings(documentId, intervals[..i], bindingId);
    NewBindingsShape(documentId, intervals[..i], bindingId);
    if FreshIds(existing, bindingId, i + 1) {
      forall b | b in existing + written
        ensures b.id != bindingId(i)
      {
        if b !in existing {
          var j :| 0 <= j < i && written[j] == b;
        }
      }
    } else {
      var k: nat :| k < i + 1 && !((forall b :: b in existing ==> b.id != bindingId(k))
                                   && (forall j: nat :: j < k ==> bindingId(j) != bindingId(k)));
      assert k == i;
      if b :| b in existing && b.id == bindingId(i) {
        assert b in existing + written;
      } else {
        var j: nat :| j < i && bindingId(j) == bindingId(i);
        assert written[j] in existing + written;
      }
    }
  }

  /**
   * The guard grants access only to the caller's own, existing document, and
   * answers 403 exactly when the document exists but belongs to someone else.
   */
  lemma AccessGrantsOwnDocument(users: seq<User>, documents: seq<Document>, documentId: string, ctx: Auth.Context)
    ensures var a := CheckAccess(users, documents, documentId, ctx);
      && (a.Granted? ==> a.doc in documents && a.doc.id == documentId && a.doc.userId == a.userId
                         && Auth.GetUserIDFromContext(ctx) == Ok(a.userId)
                         && (exists u :: u in users && u.id == a.userId))
      && (a == Denied(StatusForbidden) <==>
            documentId != "" && documentId != "undefined" && Auth.GetUserIDFromContext(ctx).Ok?
            && Db.FindUser(users, Auth.GetUserIDFromContext(ctx).value).Some?
            && Db.FindDocument(documents, documentId).Some?
            && Db.FindDocument(documents, documentId).value.userId != Auth.GetUserIDFromContext(ctx).value)
      && (documentId == "" || documentId == "undefined" ==> a == Denied(StatusBadRequest))
      && (a.Denied? ==> a.status in {StatusBadRequest, StatusUnauthorized, StatusNotFound, StatusForbidden})
  {
  }

  /** A request that supplies nothing leaves the document as it is. */
  lemma MergeEmptyIsIdentity(doc: Document, reminders: seq<string>)
    ensures Merge(doc, EmptyRequest(reminders)) == doc
  {
  }

  /** Merging the same request twice is merging it once. */
  lemma MergeIdempotent(doc: Document, req: DocumentRequest)
    ensures Merge(Merge(doc, req), req) == Merge(doc, req)
  {
  }

  /**
   * A merge never changes the document's id, owner or timestamps; each field
   * holds the request's value when supplied and the stored value otherwise.
   */
  lemma MergeFieldwise(doc: Document, req: DocumentRequest)
    ensures var m := Merge(doc, req);
      && m.id == doc.id && m.userId == doc.userId && m.createdAt == doc.createdAt && m.updatedAt == doc.updatedAt
      && (req.name != "" ==> m.name == req.name) && (req.name == "" ==> m.name == doc.name)
      && (req.description.Some? ==> m.description == req.description) && (req.description.None? ==> m.description == doc.description)
      && (req.identifier.Some? ==> m.identifier == req.identifier) && (req.identifier.None? ==> m.identifier == doc.identifier)
      && (req.expirationDate != CivilTime.ZeroTime ==> m.expirationDate == req.expirationDate)
      && (req.expirationDate == CivilTime.ZeroTime ==> m.expirationDate == doc.expirationDate)
      && (req.timezone != "" ==> m.timezone == req.timezone) && (req.timezone == "" ==> m.timezone == doc.timezone)
      && (req.attachmentUrl.Some? ==> m.attachmentUrl == req.attachmentUrl) && (req.attachmentUrl.None? ==> m.attachmentUrl == doc.attachmentUrl)
  {
  }

  /** Re-sending a document's own values as a request changes nothing. */
  lemma MergeOwnValues(doc: Document, reminders: seq<string>)
    ensures Merge(doc, AsRequest(doc, reminders)) == doc
  {
  }

  /** What an update stores for the guarded document: the merge, stamped with `now`. */
  lemma UpdateStoresMerge(documents: seq<Document>, doc: Document, req: DocumentRequest, now: Instant)
    requires Db.UniqueDocumentIds(documents)
    requires doc in documents
    ensures var r := Db.UpdatedDocuments(documents, Merge(doc, req), now);
      && |r| == |documents|
      && (forall i :: 0 <= i < |documents| && documents[i].id == doc.id ==> r[i] == Merge(doc, req).(updatedAt := now))
      && (forall i :: 0 <= i < |documents| && documents[i].id != doc.id ==> r[i] == documents[i])
  {
    Db.UpdatedDocumentsKeepIds(documents, Merge(doc, req), now);
    forall i | 0 <= i < |documents| && documents[i].id == doc.id
      ensures documents[i] == doc
    {
      var j :| 0 <= j < |documents| && documents[j] == doc;
    }
  }

  /** Bindings added by a create or update are enabled, unsent and belong to that document, one per resolved interval. */
  lemma NewBindingsEnabledAndUnsent(documentId: string, intervals: seq<ReminderInterval>, bindingId: nat -> Uuid)
    ensures forall b :: b in NewBindings(documentId, intervals, bindingId) ==>
      b.enabled && b.sentAt.None? && b.documentId == documentId && exists c :: c in intervals && c.id == b.reminderIntervalId
  {
    NewBindingsShape(documentId, intervals, bindingId);
  }

  /** A registration with a missing field is 400, unless the body failed to decode or hashing failed first. */
  lemma RegisterMissingField(users: seq<User>, req: UserRequest, hashed: string)
    requires req.email == "" || req.password == "" || req.name == ""
    ensures RegisterRejection(users, Some(req), Some(hashed)) == Some(StatusBadRequest)
  {
  }

  /** A complete registration is 409 exactly when the e-mail is taken. */
  lemma RegisterConflict(users: seq<User>, req: UserRequest, hashed: string)
    requires req.email != "" && req.password != "" && req.name != ""
    ensures RegisterRejection(users, Some(req), Some(hashed)) == Some(StatusConflict) <==> exists u :: u in users && u.email == req.email
    ensures RegisterRejection(users, Some(req), Some(hashed)).None? <==> forall u :: u in users ==> u.email != req.email
  {
  }

  /** A create without name, expiration or timezone, from a known caller, is 400. */
  lemma CreateIncompleteRejected(users: seq<User>, ctx: Auth.Context, req: DocumentRequest)
    requires Auth.GetUserIDFromContext(ctx).Ok?
    requires Db.FindUser(users, Auth.GetUserIDFromContext(ctx).value).Some?
    requires !Complete(req)
    ensures CreateRejection(users, ctx, Some(req)) == Some(StatusBadRequest)
  {
  }
}
