/**
 * The storage layer: the four tables as row sequences of one `Repository`
 * object, and each query as a method over them. As a modelling choice, rows
 * keep insertion order and a query without an ordering clause returns them in
 * that order; a database does not promise this.
 *
 * Only the failures the queries themselves define are modelled: a missing row
 * and a primary-key collision. Connection and driver errors are not.
 */
module Db {
  import opened Wrappers
  import opened Models

  /** No two rows of `rows` share an id. */
  predicate UniqueUserIds(rows: seq<User>)
  {
    forall i, j :: 0 <= i < j < |rows| ==> rows[i].id != rows[j].id
  }

  predicate UniqueDocumentIds(rows: seq<Document>)
  {
    forall i, j :: 0 <= i < j < |rows| ==> rows[i].id != rows[j].id
  }

  predicate UniqueBindingIds(rows: seq<DocumentReminder>)
  {
    forall i, j :: 0 <= i < j < |rows| ==> rows[i].id != rows[j].id
  }

  predicate UniqueIntervalIds(rows: seq<ReminderInterval>)
  {
    forall i, j :: 0 <= i < j < |rows| ==> rows[i].id != rows[j].id
  }

  // ---------------------------------------------------------------------
  // Reference definitions of the queries, on plain row sequences.
  // ---------------------------------------------------------------------

  /** The row with id `id`, if any (ids are unique in a valid table, so it is the only one). */
  function FindUser(users: seq<User>, id: Uuid): (r: Option<User>)
    ensures r.Some? <==> exists u :: u in users && u.id == id
    ensures r.Some? ==> r.value in users && r.value.id == id
  {
    if users == [] then None
    else if users[0].id == id then Some(users[0])
    else FindUser(users[1..], id)
  }

  function FindDocument(documents: seq<Document>, id: Uuid): (r: Option<Document>)
    ensures r.Some? <==> exists d :: d in documents && d.id == id
    ensures r.Some? ==> r.value in documents && r.value.id == id
  {
    if documents == [] then None
    else if documents[0].id == id then Some(documents[0])
    else FindDocument(documents[1..], id)
  }

  function FindInterval(catalog: seq<ReminderInterval>, id: int): (r: Option<ReminderInterval>)
    ensures r.Some? <==> exists c :: c in catalog && c.id == id
    ensures r.Some? ==> r.value in catalog && r.value.id == id
  {
    if catalog == [] then None
    else if catalog[0].id == id then Some(catalog[0])
    else FindInterval(catalog[1..], id)
  }

  /** What `GetReminderIntervalByID` answers for the row found. */
  function IntervalResult(interval: Option<ReminderInterval>): Result<ReminderInterval>
  {
    match interval
    case None => Err("reminder interval not found")
    case Some(c) => Ok(c)
  }

  /** The error a NULL phone number gives when it is scanned into a string. */
  const NullPhone: string := "failed to get user phone number: converting NULL to string is unsupported"

  /** What `GetUserEmail` answers for the row found. */
  function EmailOf(user: Option<User>): Result<string>
  {
    match user
    case None => Err("user does not exist")
    case Some(u) => Ok(u.email)
  }

  /** What `GetUserPhoneNumber` answers for the row found. */
  function PhoneOf(user: Option<User>): Result<string>
  {
    match user
    case None => Err("user does not exist")
    case Some(u) => if u.phoneNumber.Some? then Ok(u.phoneNumber.value) else Err(NullPhone)
  }

  /** What `GetDocumentByID` answers for the row found. */
  function DocumentResult(doc: Option<Document>): Result<Document>
  {
    match doc
    case None => Err("document not found")
    case Some(d) => Ok(d)
  }

  /** The catalog rows whose code is one of `labels`, in catalog order. */
  function Whitelist(catalog: seq<ReminderInterval>, labels: seq<string>): seq<ReminderInterval>
  {
    if catalog == [] then []
    else
      var k := |catalog| - 1;
      var earlier := Whitelist(catalog[..k], labels);
      if catalog[k].idLabel in labels then earlier + [catalog[k]] else earlier
  }

  /** The bindings of document `documentId`, in table order. */
  function BindingsOf(bindings: seq<DocumentReminder>, documentId: string): seq<DocumentReminder>
  {
    if bindings == [] then []
    else
      var k := |bindings| - 1;
      var earlier := BindingsOf(bindings[..k], documentId);
      if bindings[k].documentId == documentId then earlier + [bindings[k]] else earlier
  }

  /** Whether a binding row is the one of `documentId` and catalog interval `intervalId`. */
  predicate Binds(row: DocumentReminder, documentId: string, intervalId: int)
  {
    row.documentId == documentId && row.reminderIntervalId == intervalId
  }

  /** The bindings with every row of this document and interval set to `enabled` and its send stamp cleared. */
  function Toggled(bindings: seq<DocumentReminder>, documentId: string, intervalId: int, enabled: bool): seq<DocumentReminder>
  {
    if bindings == [] then []
    else
      var k := |bindings| - 1;
      var row := bindings[k];
      Toggled(bindings[..k], documentId, intervalId, enabled)
        + [if Binds(row, documentId, intervalId) then row.(enabled := enabled, sentAt := None) else row]
  }

  /** The row `row` after the document update writes the values of `doc` into it at instant `now`. */
  function Overwritten(row: Document, doc: Document, now: Instant): Document
  {
    row.(name := doc.name, description := doc.description, identifier := doc.identifier,
         expirationDate := doc.expirationDate, timezone := doc.timezone, attachmentUrl := doc.attachmentUrl,
         updatedAt := now)
  }

  /** The documents table after updating the row whose id is `doc.id`. */
  function UpdatedDocuments(documents: seq<Document>, doc: Document, now: Instant): seq<Document>
  {
    if documents == [] then []
    else
      var k := |documents| - 1;
      var row := documents[k];
      UpdatedDocuments(documents[..k], doc, now) + [if row.id == doc.id then Overwritten(row, doc, now) else row]
  }

  /** The documents table without the rows whose id is `documentId`. */
  function WithoutDocument(documents: seq<Document>, documentId: Uuid): seq<Document>
  {
    if documents == [] then []
    else
      var k := |documents| - 1;
      var earlier := WithoutDocument(documents[..k], documentId);
      if documents[k].id == documentId then earlier else earlier + [documents[k]]
  }

  /** The documents of user `userId`, in table order. */
  function DocumentsOf(documents: seq<Document>, userId: Uuid): seq<Document>
  {
    if documents == [] then []
    else
      var k := |documents| - 1;
      var earlier := DocumentsOf(documents[..k], userId);
      if documents[k].userId == userId then earlier + [documents[k]] else earlier
  }

  /** Newest first: creation times never increase along the rows. */
  predicate NewestFirst(rows: seq<Document>)
  {
    forall i, j :: 0 <= i < j < |rows| ==> rows[i].createdAt >= rows[j].createdAt
  }

  /** Places `doc` into `rows` after every row at least as new, keeping `rows` newest first. */
  function InsertNewestFirst(rows: seq<Document>, doc: Document): (r: seq<Document>)
    requires NewestFirst(rows)
    ensures NewestFirst(r)
    ensures multiset(r) == multiset(rows) + multiset{doc}
  {
    if rows == [] then [doc]
    else if rows[0].createdAt >= doc.createdAt then
      var rest := InsertNewestFirst(rows[1..], doc);
      assert rows == [rows[0]] + rows[1..];
      InsertedNoNewer(rows[1..], doc, rest, rows[0].createdAt);
      PrependNewest(rows[0], rest);
      [rows[0]] + rest
    else
      PrependNewest(doc, rows);
      [doc] + rows
  }

  /** A row at least as new as the head of a newest-first list can go in front of it. */
  lemma PrependNewest(x: Document, rest: seq<Document>)
    requires NewestFirst(rest)
    requires rest != [] ==> rest[0].createdAt <= x.createdAt
    ensures NewestFirst([x] + rest)
  {
    var r := [x] + rest;
    forall i, j | 0 <= i < j < |r|
      ensures r[i].createdAt >= r[j].createdAt
    {
      assert r[j] == rest[j - 1];
      if i > 0 {
        assert r[i] == rest[i - 1];
      } else if j > 1 {
        assert rest[0].createdAt >= rest[j - 1].createdAt;
      }
    }
  }

  /** Every row of `rest` (which holds `rows` and `doc`) is no newer than `bound`, when `rows` and `doc` are not. */
  lemma InsertedNoNewer(rows: seq<Document>, doc: Document, rest: seq<Document>, bound: Instant)
    requires multiset(rest) == multiset(rows) + multiset{doc}
    requires forall d :: d in rows ==> d.createdAt <= bound
    requires doc.createdAt <= bound
    ensures forall d :: d in rest ==> d.createdAt <= bound
  {
    forall d | d in rest
      ensures d.createdAt <= bound
    {
      assert d in multiset(rest);
      assert d in multiset(rows) || d == doc;
    }
  }

  // ---------------------------------------------------------------------
  // The repository.
  // ---------------------------------------------------------------------

  class Repository {
    var users: seq<User>
    var documents: seq<Document>
    var bindings: seq<DocumentReminder>
    /** The reminder_intervals table: a fixed catalog the application only reads. */
    const catalog: seq<ReminderInterval>

    /** Every table's primary key holds. */
    predicate Valid()
      reads this
    {
      UniqueUserIds(users) && UniqueDocumentIds(documents) && UniqueBindingIds(bindings) && UniqueIntervalIds(catalog)
    }

    constructor (catalog: seq<ReminderInterval>)
      requires UniqueIntervalIds(catalog)
      ensures Valid()
      ensures users == [] && documents == [] && bindings == [] && this.catalog == catalog
    {
      users := [];
      documents := [];
      bindings := [];
      this.catalog := catalog;
    }

    /** Inserts `user`; the database stamps both timestamps with `now`. Fails on a taken id. */
    method CreateUser(user: User, now: Instant) returns (err: Option<string>)
      requires Valid()
      modifies this
      ensures Valid()
      ensures documents == old(documents) && bindings == old(bindings)
      ensures err.None? <==> forall u :: u in old(users) ==> u.id != user.id
      ensures users == if err.None? then old(users) + [user.(createdAt := now, updatedAt := now)] else old(users)
    {
      var i := 0;
      while i < |users|
        invariant 0 <= i <= |users|
        invariant forall k :: 0 <= k < i ==> users[k].id != user.id
      {
        if users[i].id == user.id {
          return Some("failed to create user: duplicate key");
        }
        i := i + 1;
      }
      users := users + [user.(createdAt := now, updatedAt := now)];
      err := None;
    }

    /** Looks for a user with this email: no error iff there is one. */
    method CheckUserExistsByEmail(email: string) returns (err: Option<string>)
      ensures err.None? <==> exists u :: u in users && u.email == email
      ensures err.Some? ==> err.value == "user does not exist"
    {
      var i := 0;
      while i < |users|
        invariant 0 <= i <= |users|
        invariant forall k :: 0 <= k < i ==> users[k].email != email
      {
        if users[i].email == email {
          return None;
        }
        i := i + 1;
      }
      err := Some("user does not exist");
    }

    /** Looks for the user with this id: no error iff there is one. */
    method CheckUserExistsById(userId: Uuid) returns (err: Option<string>)
      ensures err.None? <==> exists u :: u in users && u.id == userId
      ensures err.Some? ==> err.value == "user does not exist"
    {
      var i := 0;
      while i < |users|
        invariant 0 <= i <= |users|
        invariant forall k :: 0 <= k < i ==> users[k].id != userId
      {
        if users[i].id == userId {
          return None;
        }
        i := i + 1;
      }
      err := Some("user does not exist");
    }

    /** The user's e-mail address, or "user does not exist". */
    method GetUserEmail(userId: Uuid) returns (r: Result<string>)
      requires Valid()
      ensures r == EmailOf(FindUser(users, userId))
    {
      var i := 0;
      while i < |users|
        invariant 0 <= i <= |users|
        invariant forall k :: 0 <= k < i ==> users[k].id != userId
      {
        if users[i].id == userId {
          return Ok(users[i].email);
        }
        i := i + 1;
      }
      r := Err("user does not exist");
    }

    /**
     * The user's phone number. A missing user is "user does not exist"; a
     * NULL phone number does not scan into a string and is an error too.
     */
    method GetUserPhoneNumber(userId: Uuid) returns (r: Result<string>)
      requires Valid()
      ensures r == PhoneOf(FindUser(users, userId))
    {
      var i := 0;
      while i < |users|
        invariant 0 <= i <= |users|
        invariant forall k :: 0 <= k < i ==> users[k].id != userId
      {
        if users[i].id == userId {
          match users[i].phoneNumber {
            case None => return Err(NullPhone);
            case Some(phone) => return Ok(phone);
          }
        }
        i := i + 1;
      }
      r := Err("user does not exist");
    }

    /** Inserts `doc`; the database stamps both timestamps with `now`. Fails on a taken id. */
    method CreateDocument(doc: Document, now: Instant) returns (r: Result<Document>)
      requires Valid()
      modifies this
      ensures Valid()
      ensures users == old(users) && bindings == old(bindings)
      ensures r.Ok? <==> forall d :: d in old(documents) ==> d.id != doc.id
      ensures r.Ok? ==> r.value == doc.(createdAt := now, updatedAt := now) && documents == old(documents) + [r.value]
      ensures r.Err? ==> documents == old(documents)
    {
      var i := 0;
      while i < |documents|
        invariant 0 <= i <= |documents|
        invariant forall k :: 0 <= k < i ==> documents[k].id != doc.id
      {
        if documents[i].id == doc.id {
          return Err("failed to create document: duplicate key");
        }
        i := i + 1;
      }
      var stored := doc.(createdAt := now, updatedAt := now);
      documents := documents + [stored];
      r := Ok(stored);
    }

    /** The document with id `documentId`, or "document not found". */
    method GetDocumentByID(documentId: Uuid) returns (r: Result<Document>)
      requires Valid()
      ensures r == DocumentResult(FindDocument(documents, documentId))
    {
      var i := 0;
      while i < |documents|
        invariant 0 <= i <= |documents|
        invariant forall k :: 0 <= k < i ==> documents[k].id != documentId
      {
        if documents[i].id == documentId {
          return Ok(documents[i]);
        }
        i := i + 1;
      }
      r := Err("document not found");
    }

    /**
     * Overwrites name, description, identifier, expiration, timezone and
     * attachment of the row with id `doc.id`, and stamps it updated at `now`;
     * "document not found" when there is no such row.
     */
    method UpdateDocument(doc: Document, now: Instant) returns (err: Option<string>)
      requires Valid()
      modifies this
      ensures Valid()
      ensures users == old(users) && bindings == old(bindings)
      ensures err.None? <==> exists d :: d in old(documents) && d.id == doc.id
      ensures err.Some? ==> err.value == "document not found"
      ensures documents == UpdatedDocuments(old(documents), doc, now)
    {
      var updated: seq<Document> := [];
      var found := false;
      var i := 0;
      while i < |documents|
        invariant 0 <= i <= |documents|
        invariant updated == UpdatedDocuments(documents[..i], doc, now)
        invariant found <==> exists k :: 0 <= k < i && documents[k].id == doc.id
      {
        assert documents[..i + 1][..i] == documents[..i];
        var row := documents[i];
        if row.id == doc.id {
          updated := updated + [Overwritten(row, doc, now)];
          found := true;
        } else {
          updated := updated + [row];
        }
        i := i + 1;
      }
      assert documents[..i] == documents;
      UpdatedDocumentsKeepIds(documents, doc, now);
      documents := updated;
      err := if found then None else Some("document not found");
    }

    /** Deletes the row with id `documentId`; "document not found" when there is none. */
    method DeleteDocument(documentId: Uuid) returns (err: Option<string>)
      requires Valid()
      modifies this
      ensures Valid()
      ensures users == old(users) && bindings == old(bindings)
      ensures err.None? <==> exists d :: d in old(documents) && d.id == documentId
      ensures err.Some? ==> err.value == "document not found"
      ensures documents == WithoutDocument(old(documents), documentId)
    {
      var kept: seq<Document> := [];
      var affected := 0;
      var i := 0;
      while i < |documents|
        invariant 0 <= i <= |documents|
        invariant kept == WithoutDocument(documents[..i], documentId)
        invariant affected == 0 <==> forall k :: 0 <= k < i ==> documents[k].id != documentId
      {
        assert documents[..i + 1][..i] == documents[..i];
        if documents[i].id == documentId {
          affected := affected + 1;
        } else {
          kept := kept + [documents[i]];
        }
        i := i + 1;
      }
      assert documents[..i] == documents;
      WithoutDocumentKeepsOthers(documents, documentId);
      documents := kept;
      err := if affected == 0 then Some("document not found") else None;
    }

    /** The documents of this user, newest first. */
    method ListDocumentsByUserID(userId: Uuid) returns (r: seq<Document>)
      ensures NewestFirst(r)
      ensures multiset(r) == multiset(DocumentsOf(documents, userId))
    {
      r := [];
      var i := 0;
      while i < |documents|
        invariant 0 <= i <= |documents|
        invariant NewestFirst(r)
        invariant multiset(r) == multiset(DocumentsOf(documents[..i], userId))
      {
        assert documents[..i + 1][..i] == documents[..i];
        if documents[i].userId == userId {
          r := InsertNewestFirst(r, documents[i]);
        }
        i := i + 1;
      }
      assert documents[..i] == documents;
    }

    /** The catalog intervals whose code is among the requested ones. */
    method GetReminderIntervalsFromIdLabels(idLabels: seq<string>) returns (r: seq<ReminderInterval>)
      ensures r == Whitelist(catalog, idLabels)
    {
      r := [];
      var i := 0;
      while i < |catalog|
        invariant 0 <= i <= |catalog|
        invariant r == Whitelist(catalog[..i], idLabels)
      {
        assert catalog[..i + 1][..i] == catalog[..i];
        if catalog[i].idLabel in idLabels {
          r := r + [catalog[i]];
        }
        i := i + 1;
      }
      assert catalog[..i] == catalog;
    }

    /** The catalog row with id `id`, or "reminder interval not found". */
    method GetReminderIntervalByID(id: int) returns (r: Result<ReminderInterval>)
      requires Valid()
      ensures r == IntervalResult(FindInterval(catalog, id))
    {
      var i := 0;
      while i < |catalog|
        invariant 0 <= i <= |catalog|
        invariant forall k :: 0 <= k < i ==> catalog[k].id != id
      {
        if catalog[i].id == id {
          return Ok(catalog[i]);
        }
        i := i + 1;
      }
      r := Err("reminder interval not found");
    }

    /**
     * Inserts a binding of `documentId` with the id, interval and enabled flag
     * of `reminder`; sent_at starts NULL. Always an insert: an existing binding
     * of the same document and interval stays, and a second one is added. Fails
     * on a taken id.
     */
    method SetDocumentReminders(documentId: string, reminder: DocumentReminder) returns (r: Result<DocumentReminder>)
      requires Valid()
      modifies this
      ensures Valid()
      ensures users == old(users) && documents == old(documents)
      ensures r.Ok? <==> forall b :: b in old(bindings) ==> b.id != reminder.id
      ensures r.Ok? ==> r.value == DocumentReminder(reminder.id, documentId, reminder.reminderIntervalId, reminder.enabled, None)
      ensures bindings == if r.Ok? then old(bindings) + [r.value] else old(bindings)
    {
      var i := 0;
      while i < |bindings|
        invariant 0 <= i <= |bindings|
        invariant forall k :: 0 <= k < i ==> bindings[k].id != reminder.id
      {
        if bindings[i].id == reminder.id {
          return Err("failed to create document reminder: duplicate key");
        }
        i := i + 1;
      }
      var row := DocumentReminder(reminder.id, documentId, reminder.reminderIntervalId, reminder.enabled, None);
      bindings := bindings + [row];
      r := Ok(row);
    }

    /**
     * Sets `enabled` and clears sent_at on every binding of (`documentId`,
     * `intervalId`); "document reminder not found" when no row matches.
     */
    method ToggleDocumentReminder(documentId: string, intervalId: int, enabled: bool) returns (err: Option<string>)
      requires Valid()
      modifies this
      ensures Valid()
      ensures users == old(users) && documents == old(documents)
      ensures err.None? <==> exists b :: b in old(bindings) && Binds(b, documentId, intervalId)
      ensures err.Some? ==> err.value == "document reminder not found"
      ensures bindings == Toggled(old(bindings), documentId, intervalId, enabled)
    {
      var result: seq<DocumentReminder> := [];
      var affected := 0;
      var i := 0;
      while i < |bindings|
        invariant 0 <= i <= |bindings|
        invariant result == Toggled(bindings[..i], documentId, intervalId, enabled)
        invariant affected == 0 <==> forall k :: 0 <= k < i ==> !Binds(bindings[k], documentId, intervalId)
      {
        assert bindings[..i + 1][..i] == bindings[..i];
        var row := bindings[i];
        if Binds(row, documentId, intervalId) {
          result := result + [row.(enabled := enabled, sentAt := None)];
          affected := affected + 1;
        } else {
          result := result + [row];
        }
        i := i + 1;
      }
      assert bindings[..i] == bindings;
      ToggledPointwise(bindings, documentId, intervalId, enabled);
      bindings := result;
      err := if affected == 0 then Some("document reminder not found") else None;
    }

    /** The bindings of this document. */
    method GetDocumentRemindersByDocumentID(documentId: string) returns (r: seq<DocumentReminder>)
      ensures r == BindingsOf(bindings, documentId)
    {
      r := [];
      var i := 0;
      while i < |bindings|
        invariant 0 <= i <= |bindings|
        invariant r == BindingsOf(bindings[..i], documentId)
      {
        assert bindings[..i + 1][..i] == bindings[..i];
        if bindings[i].documentId == documentId {
          r := r + [bindings[i]];
        }
        i := i + 1;
      }
      assert bindings[..i] == bindings;
    }
  }

  // ---------------------------------------------------------------------
  // Properties of the reference definitions.
  // ---------------------------------------------------------------------

  /** A catalog row is resolved iff its code was asked for. */
  lemma {:induction false} WhitelistMembers(catalog: seq<ReminderInterval>, labels: seq<string>)
    ensures forall c :: c in Whitelist(catalog, labels) <==> c in catalog && c.idLabel in labels
  {
    if catalog != [] {
      var k := |catalog| - 1;
      WhitelistMembers(catalog[..k], labels);
      assert catalog == catalog[..k] + [catalog[k]];
    }
  }

  /** Only the set of codes matters: order and repetition of the codes change nothing. */
  lemma {:induction false} WhitelistDependsOnCodeSet(catalog: seq<ReminderInterval>, labels1: seq<string>, labels2: seq<string>)
    requires forall l :: l in labels1 <==> l in labels2
    ensures Whitelist(catalog, labels1) == Whitelist(catalog, labels2)
  {
    if catalog != [] {
      WhitelistDependsOnCodeSet(catalog[..|catalog| - 1], labels1, labels2);
    }
  }

  /** The result is a subsequence of the catalog: one row at most per catalog row. */
  lemma {:induction false} WhitelistBounded(catalog: seq<ReminderInterval>, labels: seq<string>)
    ensures |Whitelist(catalog, labels)| <= |catalog|
    ensures UniqueIntervalIds(catalog) ==> UniqueIntervalIds(Whitelist(catalog, labels))
  {
    if catalog != [] {
      var k := |catalog| - 1;
      WhitelistBounded(catalog[..k], labels);
      WhitelistMembers(catalog[..k], labels);
      if UniqueIntervalIds(catalog) {
        assert UniqueIntervalIds(catalog[..k]);
        var earlier := Whitelist(catalog[..k], labels);
        forall c | c in earlier
          ensures c.id != catalog[k].id
        {
          var j :| 0 <= j < k && catalog[..k][j] == c;
        }
      }
    }
  }

  /** Toggling keeps the table's length and row order; exactly the matching rows change, and only in enabled and sent_at. */
  lemma {:induction false} ToggledPointwise(bindings: seq<DocumentReminder>, documentId: string, intervalId: int, enabled: bool)
    ensures var r := Toggled(bindings, documentId, intervalId, enabled);
      && |r| == |bindings|
      && forall i :: 0 <= i < |bindings| ==>
           r[i] == if Binds(bindings[i], documentId, intervalId) then bindings[i].(enabled := enabled, sentAt := None) else bindings[i]
  {
    if bindings != [] {
      ToggledPointwise(bindings[..|bindings| - 1], documentId, intervalId, enabled);
    }
  }

  /** Toggling twice in a row is the same as the second toggle alone, whichever direction either went. */
  lemma ToggleLastWins(bindings: seq<DocumentReminder>, documentId: string, intervalId: int, e1: bool, e2: bool)
    ensures Toggled(Toggled(bindings, documentId, intervalId, e1), documentId, intervalId, e2)
         == Toggled(bindings, documentId, intervalId, e2)
  {
    var once := Toggled(bindings, documentId, intervalId, e1);
    ToggledPointwise(bindings, documentId, intervalId, e1);
    ToggledPointwise(once, documentId, intervalId, e2);
    ToggledPointwise(bindings, documentId, intervalId, e2);
    assert forall i :: 0 <= i < |once| ==> Binds(once[i], documentId, intervalId) == Binds(bindings[i], documentId, intervalId);
  }

  /** A toggle keeps every binding id and every (document, interval) pair. */
  lemma ToggleKeepsKeys(bindings: seq<DocumentReminder>, documentId: string, intervalId: int, enabled: bool)
    ensures var r := Toggled(bindings, documentId, intervalId, enabled);
      && |r| == |bindings|
      && forall i :: 0 <= i < |r| ==>
           (r[i].id == bindings[i].id && r[i].documentId == bindings[i].documentId
            && r[i].reminderIntervalId == bindings[i].reminderIntervalId)
  {
    ToggledPointwise(bindings, documentId, intervalId, enabled);
  }

  /** An update keeps each row's id, owner and creation time, and changes no row with another id. */
  lemma {:induction false} UpdatedDocumentsKeepIds(documents: seq<Document>, doc: Document, now: Instant)
    ensures var r := UpdatedDocuments(documents, doc, now);
      && |r| == |documents|
      && forall i :: 0 <= i < |documents| ==>
           r[i] == if documents[i].id == doc.id then Overwritten(documents[i], doc, now) else documents[i]
  {
    if documents != [] {
      UpdatedDocumentsKeepIds(documents[..|documents| - 1], doc, now);
    }
  }

  /** What an update writes: the request's six columns and the timestamp; id, owner and creation time stay. */
  lemma OverwrittenFields(row: Document, doc: Document, now: Instant)
    ensures var r := Overwritten(row, doc, now);
      && r.id == row.id && r.userId == row.userId && r.createdAt == row.createdAt
      && r.name == doc.name && r.description == doc.description && r.identifier == doc.identifier
      && r.expirationDate == doc.expirationDate && r.timezone == doc.timezone
      && r.attachmentUrl == doc.attachmentUrl && r.updatedAt == now
  {
  }

  /** Deleting keeps exactly the rows with other ids, keeps ids unique, and never grows the table. */
  lemma {:induction false} WithoutDocumentKeepsOthers(documents: seq<Document>, documentId: Uuid)
    ensures forall d :: d in WithoutDocument(documents, documentId) <==> d in documents && d.id != documentId
    ensures UniqueDocumentIds(documents) ==> UniqueDocumentIds(WithoutDocument(documents, documentId))
    ensures |WithoutDocument(documents, documentId)| <= |documents|
  {
    if documents != [] {
      var k := |documents| - 1;
      var prefix := documents[..k];
      var earlier := WithoutDocument(prefix, documentId);
      WithoutDocumentKeepsOthers(prefix, documentId);
      assert documents == prefix + [documents[k]];
      if UniqueDocumentIds(documents) && documents[k].id != documentId {
        assert UniqueDocumentIds(prefix);
        forall d | d in earlier
          ensures d.id != documents[k].id
        {
          var j :| 0 <= j < k && prefix[j] == d;
        }
        AppendFreshId(earlier, documents[k]);
      }
    }
  }

  /** Appending a row whose id no row has keeps ids unique. */
  lemma AppendFreshId(rows: seq<Document>, x: Document)
    requires UniqueDocumentIds(rows)
    requires forall d :: d in rows ==> d.id != x.id
    ensures UniqueDocumentIds(rows + [x])
  {
    var r := rows + [x];
    forall i, j | 0 <= i < j < |r|
      ensures r[i].id != r[j].id
    {
      assert r[i] == rows[i];
      if j < |rows| {
        assert r[j] == rows[j];
      }
    }
  }

  /** The listed documents are exactly that user's documents. */
  lemma {:induction false} DocumentsOfMembers(documents: seq<Document>, userId: Uuid)
    ensures forall d :: d in DocumentsOf(documents, userId) <==> d in documents && d.userId == userId
  {
    if documents != [] {
      var k := |documents| - 1;
      DocumentsOfMembers(documents[..k], userId);
      assert documents == documents[..k] + [documents[k]];
    }
  }

  /** The bindings listed for a document are exactly its bindings. */
  lemma {:induction false} BindingsOfMembers(bindings: seq<DocumentReminder>, documentId: string)
    ensures forall b :: b in BindingsOf(bindings, documentId) <==> b in bindings && b.documentId == documentId
  {
    if bindings != [] {
      var k := |bindings| - 1;
      BindingsOfMembers(bindings[..k], documentId);
      assert bindings == bindings[..k] + [bindings[k]];
    }
  }
}
