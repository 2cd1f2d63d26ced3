/** The document store the managers share (`this.mongomodels`): one keyed
    collection per model, records as datatypes, and `findOne` as a scan in
    insertion order. The record fields are those the core reads or writes
    (managers/entities/<entity>/<entity>.mongoModel.js). */
module Store {
  import opened Common

  datatype TokenStatus = Active | Revoked | Expired

  datatype TransferStatus = Pending | Approved | Rejected

  /** A user; `password` holds what the save hook stores (its hash). */
  datatype User = User(
    firstname: string,
    lastname: string,
    email: string,
    password: string,
    role: Role,
    school: Option<Id>)

  /** A school. The transfer workflow reads `deletedAt`, so it is kept here
      although nothing in the core ever sets it. */
  datatype School = School(
    name: string,
    code: string,
    address: Option<string>,
    phone: Option<string>,
    email: Option<string>,
    maxCapacity: int,
    createdBy: Id,
    deletedAt: Option<int>)

  datatype Classroom = Classroom(name: string, school: Id, deletedAt: Option<int>)

  datatype Student = Student(
    studentNumber: Option<string>,
    firstname: string,
    lastname: string,
    email: string,
    school: Id,
    classroom: Option<Id>,
    deletedAt: Option<int>)

  /** A long-lived session token, stored under its random token string. */
  datatype LongToken = LongToken(
    user: Id,
    device: Option<string>,
    ip: Option<string>,
    status: TokenStatus,
    expiresAt: int)

  /** The student as it was when a transfer was proposed. */
  datatype Snapshot = Snapshot(
    firstname: string,
    lastname: string,
    email: string,
    studentNumber: Option<string>,
    classroom: Option<string>)

  datatype TransferRequest = TransferRequest(
    student: Id,
    fromSchool: Id,
    toSchool: Id,
    toClassroom: Option<Id>,
    requestedBy: Id,
    status: TransferStatus,
    respondedBy: Option<Id>,
    respondedAt: Option<int>,
    snapshot: Snapshot)

  /** The collections. Every id-keyed collection draws its keys from one
      counter, as ObjectIds are unique across collections. */
  class Database {
    var users: map<Id, User>
    var schools: map<Id, School>
    var classrooms: map<Id, Classroom>
    var students: map<Id, Student>
    var transferRequests: map<Id, TransferRequest>
    var longTokens: map<string, LongToken>
    var nextId: Id

    ghost predicate Valid()
      reads this
    {
      && (forall id :: id in users ==> id < nextId)
      && (forall id :: id in schools ==> id < nextId)
      && (forall id :: id in classrooms ==> id < nextId)
      && (forall id :: id in students ==> id < nextId)
      && (forall id :: id in transferRequests ==> id < nextId)
    }

    constructor ()
      ensures Valid()
      ensures users == map[] && schools == map[] && classrooms == map[]
      ensures students == map[] && transferRequests == map[] && longTokens == map[]
    {
      users, schools, classrooms := map[], map[], map[];
      students, transferRequests, longTokens := map[], map[], map[];
      nextId := 0;
    }

    /** A fresh ObjectId: a key of no collection. */
    method NewId() returns (id: Id)
      requires Valid()
      modifies this`nextId
      ensures Valid() && nextId == old(nextId) + 1 && id == old(nextId)
      ensures id !in users && id !in schools && id !in classrooms
      ensures id !in students && id !in transferRequests
    {
      id := nextId;
      nextId := nextId + 1;
    }
  }

  /** `findOne(filter)` over ids `from` .. `bound - 1`: the first document,
      in insertion (id) order, that the filter `p` accepts. */
  function FindOneFrom<T>(m: map<Id, T>, p: T -> bool, from: nat, bound: nat): (r: Option<Id>)
    decreases bound - from
    ensures r.Some? ==> from <= r.value < bound && r.value in m && p(m[r.value])
    ensures r.Some? ==> forall id :: id in m && from <= id < r.value ==> !p(m[id])
    ensures r.None? ==> forall id :: id in m && from <= id < bound ==> !p(m[id])
  {
    if from >= bound then None
    else if from in m && p(m[from]) then Some(from)
    else FindOneFrom(m, p, from + 1, bound)
  }

  /** `findOne(filter)` on a collection whose keys are all below `bound`:
      the matching document inserted first, or none when nothing matches. */
  function FindOne<T>(m: map<Id, T>, p: T -> bool, bound: nat): (r: Option<Id>)
    requires forall id :: id in m ==> id < bound
    ensures r.Some? ==> r.value in m && p(m[r.value])
    ensures r.Some? ==> forall id :: id in m && id < r.value ==> !p(m[id])
    ensures r.None? <==> forall id :: id in m ==> !p(m[id])
  {
    FindOneFrom(m, p, 0, bound)
  }

  /** A user as the API returns it: every stored field except the password. */
  datatype PublicUser = PublicUser(
    id: Id,
    firstname: string,
    lastname: string,
    email: string,
    role: Role,
    school: Option<Id>)

  /** The user as a reply shows it: every stored field except the password. */
  function Sanitized(id: Id, u: User): (p: PublicUser)
    ensures p.id == id && p.role == u.role && p.school == u.school && p.email == u.email
    ensures p.firstname == u.firstname && p.lastname == u.lastname
  {
    PublicUser(id, u.firstname, u.lastname, u.email, u.role, u.school)
  }
}
