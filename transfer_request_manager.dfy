/** The transfer-request workflow
    (managers/entities/transferRequest/TransferRequest.manager.js): a student
    is proposed for a move to another school, and the destination decides.
    A request is `pending` until approved or rejected, both final; approving
    moves the student. Reads are scoped to the caller's school. */
module Transfers {
  import opened Common
  import opened Store

  datatype RequestDoc = RequestDoc(id: Id, request: TransferRequest)

  /** What `getTransferRequests` returns, less the page of documents. */
  datatype Listing = Listing(visible: set<Id>, total: nat, page: int, limit: int)

  function IsPendingFor(student: Id): TransferRequest -> bool {
    (r: TransferRequest) => r.student == student && r.status == Pending
  }

  /** At most one pending request per student. */
  ghost predicate AtMostOnePending(requests: map<Id, TransferRequest>) {
    forall a, b ::
      (a in requests && b in requests && requests[a].status == Pending &&
       requests[b].status == Pending && requests[a].student == requests[b].student) ==> a == b
  }

  /** Decided requests are never written again. */
  ghost predicate DecidedUnchanged(before: map<Id, TransferRequest>, after: map<Id, TransferRequest>) {
    forall id :: id in before && before[id].status != Pending ==> id in after && after[id] == before[id]
  }

  /** The listing filter: a school admin sees requests from or to their
      school; everyone else sees all. */
  predicate Visible(token: Claims, r: TransferRequest) {
    !IsSchoolAdmin(token) || Some(r.fromSchool) == token.school || Some(r.toSchool) == token.school
  }

  /** `_getTransferRequest`: `transfer_request_not_found` (404) exactly when
      no request has the id. */
  function LookupRequest(requests: map<Id, TransferRequest>, requestId: Id): (r: Reply<RequestDoc>)
    ensures r.Ok? <==> requestId in requests
    ensures r.Ok? ==> r.value == RequestDoc(requestId, requests[requestId])
    ensures !r.Ok? ==> r == Fail("transfer_request_not_found", 404)
  {
    if requestId !in requests then Fail("transfer_request_not_found", 404)
    else Ok(RequestDoc(requestId, requests[requestId]))
  }

  /** `getTransferRequest`: not-found is decided before ownership; a school
      admin of neither school is `forbidden`; otherwise the stored request. */
  function GetTransferRequest(requests: map<Id, TransferRequest>, token: Claims, requestId: Id): (r: Reply<RequestDoc>)
    ensures requestId !in requests ==> r == Fail("transfer_request_not_found", 404)
    ensures requestId in requests && !Visible(token, requests[requestId]) ==> r == Fail("forbidden", 403)
    ensures r.Ok? <==> requestId in requests && Visible(token, requests[requestId])
    ensures r.Ok? ==> r.value == RequestDoc(requestId, requests[requestId])
  {
    var lookup := LookupRequest(requests, requestId);
    if !lookup.Ok? then Fail("transfer_request_not_found", 404)
    else if IsSchoolAdmin(token) && OtherSchool(token, lookup.value.request.fromSchool)
            && OtherSchool(token, lookup.value.request.toSchool) then Fail("forbidden", 403)
    else Ok(lookup.value)
  }

  /** `getTransferRequests` (filter and count): the ids the caller may see,
      their number, and the page and limit echoed back. */
  function ListTransferRequests(requests: map<Id, TransferRequest>, token: Claims, page: int, limit: int): (l: Listing)
    ensures l.visible <= requests.Keys
    ensures forall id :: id in requests ==> (id in l.visible <==> Visible(token, requests[id]))
    ensures l.total == |l.visible| && l.page == page && l.limit == limit
    ensures !IsSchoolAdmin(token) ==> l.visible == requests.Keys
  {
    var visible := set id | id in requests && Visible(token, requests[id]);
    Listing(visible, |visible|, page, limit)
  }

  /** The list and the single read agree: a request is listed exactly when
      it can be fetched. */
  lemma ListingAgreesWithGet(requests: map<Id, TransferRequest>, token: Claims, requestId: Id, page: int, limit: int)
    ensures requestId in ListTransferRequests(requests, token, page, limit).visible <==>
      GetTransferRequest(requests, token, requestId).Ok?
  {
  }

  /** The snapshot taken at proposal time: the student's names, email and
      number, and the name of their classroom when it exists and is non-empty. */
  function TakeSnapshot(s: Student, classroom: Option<Classroom>): (snap: Snapshot)
    ensures snap.firstname == s.firstname && snap.lastname == s.lastname
    ensures snap.email == s.email && snap.studentNumber == s.studentNumber
    ensures snap.classroom.Some? <==> classroom.Some? && classroom.value.name != ""
    ensures snap.classroom.Some? ==> snap.classroom.value == classroom.value.name
  {
    Snapshot(s.firstname, s.lastname, s.email, s.studentNumber,
             if classroom.Some? && classroom.value.name != "" then Some(classroom.value.name) else None)
  }

  /** The decision step of approve and reject: `forbidden` for a school
      admin of another school than the destination (the source school's
      admin included), then `transfer_request_not_pending` unless pending. */
  function DecisionGuard(token: Claims, r: TransferRequest): (e: Option<Reply<RequestDoc>>)
    ensures e.None? <==> (!IsSchoolAdmin(token) || token.school == Some(r.toSchool)) && r.status == Pending
    ensures IsSchoolAdmin(token) && token.school != Some(r.toSchool) ==> e == Some(Fail("forbidden", 403))
    ensures (!IsSchoolAdmin(token) || token.school == Some(r.toSchool)) && r.status != Pending ==>
      e == Some(Fail("transfer_request_not_pending", 409))
  {
    if IsSchoolAdmin(token) && OtherSchool(token, r.toSchool) then Some(Fail("forbidden", 403))
    else if r.status != Pending then Some(Fail("transfer_request_not_pending", 409))
    else None
  }

  /** A source-school admin can never decide a transfer out of their school
      to a different school. */
  lemma SourceAdminCannotDecide(token: Claims, r: TransferRequest)
    requires IsSchoolAdmin(token) && token.school == Some(r.fromSchool) && r.fromSchool != r.toSchool
    ensures DecisionGuard(token, r) == Some(Fail("forbidden", 403))
  {
  }

  /** The request after a decision: the new status and the responder; the
      rest, the snapshot included, as it was. */
  function Decided(r: TransferRequest, status: TransferStatus, responder: Id, now: int): (d: TransferRequest)
    ensures d.student == r.student && d.fromSchool == r.fromSchool && d.toSchool == r.toSchool
    ensures d.toClassroom == r.toClassroom && d.requestedBy == r.requestedBy && d.snapshot == r.snapshot
    ensures d.status == status && d.respondedBy == Some(responder) && d.respondedAt == Some(now)
  {
    r.(status := status, respondedBy := Some(responder), respondedAt := Some(now))
  }

  /** Deciding a pending request keeps at most one pending request per
      student and leaves every decided request alone. */
  lemma DecidingKeepsInvariants(requests: map<Id, TransferRequest>, id: Id, status: TransferStatus,
                                responder: Id, now: int)
    requires id in requests && requests[id].status == Pending && status != Pending
    ensures var after := requests[id := Decided(requests[id], status, responder, now)];
      (AtMostOnePending(requests) ==> AtMostOnePending(after)) && DecidedUnchanged(requests, after)
  {
  }

  /** Adding a pending request for a student with none keeps at most one
      pending request per student. */
  lemma ProposingKeepsInvariants(requests: map<Id, TransferRequest>, id: Id, r: TransferRequest)
    requires id !in requests && r.status == Pending
    requires forall k :: k in requests ==> !IsPendingFor(r.student)(requests[k])
    ensures AtMostOnePending(requests) ==> AtMostOnePending(requests[id := r])
    ensures DecidedUnchanged(requests, requests[id := r])
  {
  }

  class TransferRequestManager {
    const db: Database

    constructor (db: Database)
      ensures this.db == db
    {
      this.db := db;
    }

    /** `createTransferRequest`. The checks, in order: the student exists and
        is not soft-deleted (`student_not_found`); a school admin belongs to
        the student's school (`forbidden`); the destination exists and is not
        soft-deleted (`school_not_found`); the input validates; the student
        has no pending request (`transfer_request_already_pending`). Only
        after all of them is one pending request stored. */
    method CreateTransferRequest(token: Claims, studentId: Id, toSchoolId: Id, toClassroomId: Option<Id>,
                                 validation: Option<Errors>) returns (r: Reply<RequestDoc>)
      requires db.Valid()
      modifies db`transferRequests, db`nextId
      ensures db.Valid()
      ensures AtMostOnePending(old(db.transferRequests)) ==> AtMostOnePending(db.transferRequests)
      ensures DecidedUnchanged(old(db.transferRequests), db.transferRequests)
      ensures studentId !in db.students || db.students[studentId].deletedAt.Some? ==>
        r == Fail("student_not_found", 404) && db.transferRequests == old(db.transferRequests)
      ensures studentId in db.students && db.students[studentId].deletedAt.None? &&
              IsSchoolAdmin(token) && OtherSchool(token, db.students[studentId].school) ==>
        r == Fail("forbidden", 403) && db.transferRequests == old(db.transferRequests)
      ensures studentId in db.students && db.students[studentId].deletedAt.None? &&
              !(IsSchoolAdmin(token) && OtherSchool(token, db.students[studentId].school)) &&
              (toSchoolId !in db.schools || db.schools[toSchoolId].deletedAt.Some?) ==>
        r == Fail("school_not_found", 404) && db.transferRequests == old(db.transferRequests)
      ensures studentId in db.students && db.students[studentId].deletedAt.None? &&
              !(IsSchoolAdmin(token) && OtherSchool(token, db.students[studentId].school)) &&
              toSchoolId in db.schools && db.schools[toSchoolId].deletedAt.None? && validation.Some? ==>
        r == ValidationError(validation.value)
      ensures r.ValidationError? ==>
        validation.Some? && r.errors == validation.value && db.transferRequests == old(db.transferRequests)
      ensures r.Ok? <==>
        validation.None? && studentId in db.students && db.students[studentId].deletedAt.None? &&
        !(IsSchoolAdmin(token) && OtherSchool(token, db.students[studentId].school)) &&
        toSchoolId in db.schools && db.schools[toSchoolId].deletedAt.None? &&
        forall k :: k in old(db.transferRequests) ==> !IsPendingFor(studentId)(old(db.transferRequests)[k])
      ensures r == Fail("transfer_request_already_pending", 409) <==>
        validation.None? && studentId in db.students && db.students[studentId].deletedAt.None? &&
        !(IsSchoolAdmin(token) && OtherSchool(token, db.students[studentId].school)) &&
        toSchoolId in db.schools && db.schools[toSchoolId].deletedAt.None? &&
        exists k :: k in old(db.transferRequests) && IsPendingFor(studentId)(old(db.transferRequests)[k])
      ensures r.Error? ==> db.transferRequests == old(db.transferRequests)
      ensures r.Ok? ==>
        var s := db.students[studentId];
        var classroom := if s.classroom.Some? && s.classroom.value in db.classrooms
                         then Some(db.classrooms[s.classroom.value]) else None;
        && validation.None? && s.deletedAt.None?
        && toSchoolId in db.schools && db.schools[toSchoolId].deletedAt.None?
        && (IsSchoolAdmin(token) ==> token.school == Some(s.school))
        && (forall k :: k in old(db.transferRequests) ==> !IsPendingFor(studentId)(old(db.transferRequests)[k]))
        && r.value.id == old(db.nextId) && r.value.id !in old(db.transferRequests)
        && r.value.request == TransferRequest(studentId, s.school, toSchoolId, toClassroomId, token.userId,
                                              Pending, None, None, TakeSnapshot(s, classroom))
        && db.transferRequests == old(db.transferRequests)[r.value.id := r.value.request]
    {
      if studentId !in db.students || db.students[studentId].deletedAt.Some? {
        return Fail("student_not_found", 404);
      }
      var student := db.students[studentId];
      if IsSchoolAdmin(token) && OtherSchool(token, student.school) {
        return Fail("forbidden", 403);
      }
      if toSchoolId !in db.schools || db.schools[toSchoolId].deletedAt.Some? {
        return Fail("school_not_found", 404);
      }
      if validation.Some? {
        return ValidationError(validation.value);
      }
      var existing := FindOne(db.transferRequests, IsPendingFor(studentId), db.nextId);
      if existing.Some? {
        return Fail("transfer_request_already_pending", 409);
      }
      var classroom := if student.classroom.Some? && student.classroom.value in db.classrooms
                       then Some(db.classrooms[student.classroom.value]) else None;
      var request := TransferRequest(studentId, student.school, toSchoolId, toClassroomId, token.userId,
                                     Pending, None, None, TakeSnapshot(student, classroom));
      ProposingKeepsInvariants(db.transferRequests, db.nextId, request);
      var id := db.NewId();
      db.transferRequests := db.transferRequests[id := request];
      return Ok(RequestDoc(id, request));
    }

    /** `approveTransferRequest`: after the lookup and the decision guard,
        the student (if still stored) moves to the destination school and
        classroom, then the request becomes `approved` by the caller. */
    method ApproveTransferRequest(token: Claims, requestId: Id, now: int) returns (r: Reply<RequestDoc>)
      modifies db`students, db`transferRequests
      ensures AtMostOnePending(old(db.transferRequests)) ==> AtMostOnePending(db.transferRequests)
      ensures DecidedUnchanged(old(db.transferRequests), db.transferRequests)
      ensures requestId !in old(db.transferRequests) ==>
        r == Fail("transfer_request_not_found", 404) && unchanged(db)
      ensures requestId in old(db.transferRequests) &&
              DecisionGuard(token, old(db.transferRequests)[requestId]).Some? ==>
        r == DecisionGuard(token, old(db.transferRequests)[requestId]).value && unchanged(db)
      ensures r.Ok? <==> requestId in old(db.transferRequests) &&
                          DecisionGuard(token, old(db.transferRequests)[requestId]).None?
      ensures r.Ok? ==>
        var req := old(db.transferRequests)[requestId];
        var d := Decided(req, Approved, token.userId, now);
        && r.value == RequestDoc(requestId, d)
        && db.transferRequests == old(db.transferRequests)[requestId := d]
        && db.students == (if req.student in old(db.students)
                           then old(db.students)[req.student := old(db.students)[req.student].(school := req.toSchool, classroom := req.toClassroom)]
                           else old(db.students))
    {
      var lookup := LookupRequest(db.transferRequests, requestId);
      if !lookup.Ok? {
        return Fail("transfer_request_not_found", 404);
      }
      var req := lookup.value.request;
      var guard := DecisionGuard(token, req);
      if guard.Some? {
        return guard.value;
      }
      if req.student in db.students {
        db.students := db.students[req.student := db.students[req.student].(school := req.toSchool, classroom := req.toClassroom)];
      }
      DecidingKeepsInvariants(db.transferRequests, requestId, Approved, token.userId, now);
      var d := Decided(req, Approved, token.userId, now);
      db.transferRequests := db.transferRequests[requestId := d];
      return Ok(RequestDoc(requestId, d));
    }

    /** `rejectTransferRequest`: the same lookup and guard as approval; only
        the request changes, to `rejected` by the caller. */
    method RejectTransferRequest(token: Claims, requestId: Id, now: int) returns (r: Reply<RequestDoc>)
      modifies db`transferRequests
      ensures AtMostOnePending(old(db.transferRequests)) ==> AtMostOnePending(db.transferRequests)
      ensures DecidedUnchanged(old(db.transferRequests), db.transferRequests)
      ensures requestId !in old(db.transferRequests) ==>
        r == Fail("transfer_request_not_found", 404) && unchanged(db)
      ensures requestId in old(db.transferRequests) &&
              DecisionGuard(token, old(db.transferRequests)[requestId]).Some? ==>
        r == DecisionGuard(token, old(db.transferRequests)[requestId]).value && unchanged(db)
      ensures r.Ok? <==> requestId in old(db.transferRequests) &&
                          DecisionGuard(token, old(db.transferRequests)[requestId]).None?
      ensures r.Ok? ==>
        var d := Decided(old(db.transferRequests)[requestId], Rejected, token.userId, now);
        r.value == RequestDoc(requestId, d) && db.transferRequests == old(db.transferRequests)[requestId := d]
    {
      var lookup := LookupRequest(db.transferRequests, requestId);
      if !lookup.Ok? {
        return Fail("transfer_request_not_found", 404);
      }
      var req := lookup.value.request;
      var guard := DecisionGuard(token, req);
      if guard.Some? {
        return guard.value;
      }
      DecidingKeepsInvariants(db.transferRequests, requestId, Rejected, token.userId, now);
      var d := Decided(req, Rejected, token.userId, now);
      db.transferRequests := db.transferRequests[requestId := d];
      return Ok(RequestDoc(requestId, d));
    }
  }
}
