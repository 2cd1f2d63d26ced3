/** School administration (managers/entities/school/School.manager.js):
    create, read, partial update, hard delete, and creating a school's
    administrator. Existence is checked before validation wherever a school
    id is given, and no error path writes. */
module Schools {
  import opened Common
  import opened Store

  /** The fields `createSchool` accepts; `maxCapacity` defaults to 0. */
  datatype SchoolInput = SchoolInput(
    name: string,
    code: string,
    address: Option<string>,
    phone: Option<string>,
    email: Option<string>,
    maxCapacity: Option<int>)

  /** The fields `updateSchool` accepts; `None` is an omitted field. */
  datatype SchoolPatch = SchoolPatch(
    name: Option<string>,
    code: Option<string>,
    address: Option<string>,
    phone: Option<string>,
    email: Option<string>,
    maxCapacity: Option<int>)

  datatype SchoolDoc = SchoolDoc(id: Id, school: School)

  const NoChanges := SchoolPatch(None, None, None, None, None, None)

  /** `_getSchool` and `getSchool`: `school_not_found` (404) exactly when no
      record has the id; `deletedAt` is not looked at. */
  function GetSchool(schools: map<Id, School>, schoolId: Id): (r: Reply<SchoolDoc>)
    ensures r.Ok? <==> schoolId in schools
    ensures r.Ok? ==> r.value == SchoolDoc(schoolId, schools[schoolId])
    ensures !r.Ok? ==> r == Fail("school_not_found", 404)
  {
    if schoolId !in schools then Fail("school_not_found", 404)
    else Ok(SchoolDoc(schoolId, schools[schoolId]))
  }

  function Override<T>(v: Option<T>, current: T): T {
    if v.Some? then v.value else current
  }

  function OverrideOptional<T>(v: Option<T>, current: Option<T>): Option<T> {
    if v.Some? then v else current
  }

  /** The record `findByIdAndUpdate(schoolId, updates)` leaves: the supplied
      fields replaced, every other field as it was. */
  function ApplyPatch(s: School, p: SchoolPatch): (t: School)
    ensures t.createdBy == s.createdBy && t.deletedAt == s.deletedAt
    ensures t.name == (if p.name.Some? then p.name.value else s.name)
    ensures t.code == (if p.code.Some? then p.code.value else s.code)
    ensures t.address == (if p.address.Some? then p.address else s.address)
    ensures t.phone == (if p.phone.Some? then p.phone else s.phone)
    ensures t.email == (if p.email.Some? then p.email else s.email)
    ensures t.maxCapacity == (if p.maxCapacity.Some? then p.maxCapacity.value else s.maxCapacity)
  {
    s.(name := Override(p.name, s.name),
       code := Override(p.code, s.code),
       address := OverrideOptional(p.address, s.address),
       phone := OverrideOptional(p.phone, s.phone),
       email := OverrideOptional(p.email, s.email),
       maxCapacity := Override(p.maxCapacity, s.maxCapacity))
  }

  /** A patch that supplies nothing changes nothing. */
  lemma EmptyPatchIsIdentity(s: School)
    ensures ApplyPatch(s, NoChanges) == s
  {
  }

  /** Applying the same patch again changes nothing more. */
  lemma ApplyPatchIdempotent(s: School, p: SchoolPatch)
    ensures ApplyPatch(ApplyPatch(s, p), p) == ApplyPatch(s, p)
  {
  }

  /** The later of two patches wins field by field. */
  function Then(p: SchoolPatch, q: SchoolPatch): SchoolPatch {
    SchoolPatch(OverrideOptional(q.name, p.name), OverrideOptional(q.code, p.code),
                OverrideOptional(q.address, p.address), OverrideOptional(q.phone, p.phone),
                OverrideOptional(q.email, p.email), OverrideOptional(q.maxCapacity, p.maxCapacity))
  }

  /** Two updates in a row are one update with the merged patch. */
  lemma ApplyPatchCompose(s: School, p: SchoolPatch, q: SchoolPatch)
    ensures ApplyPatch(ApplyPatch(s, p), q) == ApplyPatch(s, Then(p, q))
  {
  }

  /** Every supplied field is written, and only supplied fields can differ. */
  lemma ApplyPatchTouchesOnlySupplied(s: School, p: SchoolPatch)
    ensures var t := ApplyPatch(s, p);
      (p.name.Some? ==> t.name == p.name.value) &&
      (p.code.Some? ==> t.code == p.code.value) &&
      (p.address.Some? ==> t.address == p.address) &&
      (p.phone.Some? ==> t.phone == p.phone) &&
      (p.email.Some? ==> t.email == p.email) &&
      (p.maxCapacity.Some? ==> t.maxCapacity == p.maxCapacity.value)
    ensures var t := ApplyPatch(s, p);
      (t.name != s.name ==> p.name == Some(t.name)) &&
      (t.code != s.code ==> p.code == Some(t.code)) &&
      (t.address != s.address ==> p.address == t.address) &&
      (t.phone != s.phone ==> p.phone == t.phone) &&
      (t.email != s.email ==> p.email == t.email) &&
      (t.maxCapacity != s.maxCapacity ==> p.maxCapacity == Some(t.maxCapacity))
  {
  }

  class SchoolManager {
    const db: Database

    constructor (db: Database)
      ensures this.db == db
    {
      this.db := db;
    }

    /** `createSchool`: on a validation error nothing is written; otherwise
        the school is stored with `createdBy` the caller. */
    method CreateSchool(token: Claims, input: SchoolInput, validation: Option<Errors>)
      returns (r: Reply<SchoolDoc>)
      requires db.Valid()
      modifies db`schools, db`nextId
      ensures db.Valid()
      ensures validation.Some? ==> r == ValidationError(validation.value) && db.schools == old(db.schools)
      ensures validation.None? ==>
        var id := old(db.nextId);
        var s := School(input.name, input.code, input.address, input.phone, input.email,
                        Override(input.maxCapacity, 0), token.userId, None);
        id !in old(db.schools) && db.schools == old(db.schools)[id := s] && r == Ok(SchoolDoc(id, s))
    {
      if validation.Some? {
        return ValidationError(validation.value);
      }
      var id := db.NewId();
      var s := School(input.name, input.code, input.address, input.phone, input.email,
                      Override(input.maxCapacity, 0), token.userId, None);
      db.schools := db.schools[id := s];
      return Ok(SchoolDoc(id, s));
    }

    /** `updateSchool`: `school_not_found` before validation; neither error
        writes; otherwise only the supplied fields change. */
    method UpdateSchool(schoolId: Id, patch: SchoolPatch, validation: Option<Errors>)
      returns (r: Reply<SchoolDoc>)
      modifies db`schools
      ensures schoolId !in old(db.schools) ==>
        r == Fail("school_not_found", 404) && db.schools == old(db.schools)
      ensures schoolId in old(db.schools) && validation.Some? ==>
        r == ValidationError(validation.value) && db.schools == old(db.schools)
      ensures schoolId in old(db.schools) && validation.None? ==>
        var t := ApplyPatch(old(db.schools)[schoolId], patch);
        db.schools == old(db.schools)[schoolId := t] && r == Ok(SchoolDoc(schoolId, t))
    {
      var lookup := GetSchool(db.schools, schoolId);
      if !lookup.Ok? {
        return Fail("school_not_found", 404);
      }
      if validation.Some? {
        return ValidationError(validation.value);
      }
      var t := ApplyPatch(lookup.value.school, patch);
      db.schools := db.schools[schoolId := t];
      return Ok(SchoolDoc(schoolId, t));
    }

    /** `deleteSchool`: 404 with nothing deleted for an unknown id; otherwise
        the record is removed outright. */
    method DeleteSchool(schoolId: Id) returns (r: Reply<()>)
      modifies db`schools
      ensures schoolId !in old(db.schools) ==>
        r == Fail("school_not_found", 404) && db.schools == old(db.schools)
      ensures schoolId in old(db.schools) ==>
        r == Ok(()) && db.schools == old(db.schools) - {schoolId}
    {
      var lookup := GetSchool(db.schools, schoolId);
      if !lookup.Ok? {
        return Fail("school_not_found", 404);
      }
      db.schools := db.schools - {schoolId};
      return Ok(());
    }

    /** `createSchoolAdmin`: `school_not_found` before validation; neither
        error writes; otherwise a `schoolAdmin` of that school is created and
        returned without its password. */
    method CreateSchoolAdmin(schoolId: Id, firstname: string, lastname: string, email: string,
                             password: string, validation: Option<Errors>) returns (r: Reply<PublicUser>)
      requires db.Valid()
      modifies db`users, db`nextId
      ensures db.Valid()
      ensures schoolId !in db.schools ==>
        r == Fail("school_not_found", 404) && db.users == old(db.users)
      ensures schoolId in db.schools && validation.Some? ==>
        r == ValidationError(validation.value) && db.users == old(db.users)
      ensures schoolId in db.schools && validation.None? ==>
        var id := old(db.nextId);
        var u := User(firstname, lastname, email, password, SchoolAdmin, Some(schoolId));
        id !in old(db.users) && db.users == old(db.users)[id := u] && r == Ok(Sanitized(id, u))
    {
      var lookup := GetSchool(db.schools, schoolId);
      if !lookup.Ok? {
        return Fail("school_not_found", 404);
      }
      if validation.Some? {
        return ValidationError(validation.value);
      }
      var id := db.NewId();
      var u := User(firstname, lastname, email, password, SchoolAdmin, Some(schoolId));
      db.users := db.users[id := u];
      return Ok(Sanitized(id, u));
    }
  }
}
