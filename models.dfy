/** The two principal records, one per collection (Backend/models/Student.js
    and Backend/models/Teacher.js): their fields, the defaults the schemas
    fill in, the fields they require, and the unique indexes each
    collection enforces on its own records. */
module Models {
  import opened Wrappers
  import opened Crypto

  /** A JavaScript value that may be `undefined` (field absent), `null`, or
      a string. Strict equality `===` on these is datatype equality. */
  datatype JsVal = Undefined | Null | Str(s: string)

  /** A document of the Student collection. Times are milliseconds since
      the epoch; `id` is the document's `_id`. */
  datatype Student = Student(
    id: string,
    name: string,
    email: string,
    password: StoredPassword,
    studentId: string,
    otp: JsVal,
    otpExpiration: Option<nat>,
    registrationDate: nat,
    isActive: bool,
    resetPasswordToken: Option<Digest>,
    resetPasswordExpires: Option<nat>)

  /** A document of the Teacher collection. */
  datatype Teacher = Teacher(
    id: string,
    name: string,
    email: string,
    password: StoredPassword,
    teacherId: string,
    subjects: seq<string>,
    otp: JsVal,
    otpExpiration: Option<nat>,
    registrationDate: nat,
    isActive: bool,
    resetPasswordToken: Option<Digest>,
    resetPasswordExpires: Option<nat>)

  /** `new Student({...})` with the fields a handler passes; the schema
      supplies the rest. The optional fields start absent and `isActive`
      starts false; `registrationDate` defaults to the creation time. */
  function NewStudent(id: string, name: string, email: string, password: StoredPassword,
                      studentId: string, registrationDate: Option<nat>, now: nat): (s: Student)
    ensures !s.isActive
    ensures s.registrationDate == (if registrationDate.Some? then registrationDate.value else now)
    ensures s.otp == Undefined && s.otpExpiration == None
    ensures s.resetPasswordToken == None && s.resetPasswordExpires == None
    ensures s.name == name && s.email == email && s.password == password && s.studentId == studentId
  {
    Student(id, name, email, password, studentId, Undefined, None,
            registrationDate.GetOr(now), false, None, None)
  }

  /** `new Teacher({...})`; `subjects` is an array, so the schema gives it
      `[]` when the handler passes none. */
  function NewTeacher(id: string, name: string, email: string, password: StoredPassword,
                      teacherId: string, subjects: Option<seq<string>>,
                      registrationDate: Option<nat>, now: nat): (t: Teacher)
    ensures !t.isActive
    ensures t.registrationDate == (if registrationDate.Some? then registrationDate.value else now)
    ensures t.subjects == (if subjects.Some? then subjects.value else [])
    ensures t.otp == Undefined && t.otpExpiration == None
    ensures t.resetPasswordToken == None && t.resetPasswordExpires == None
    ensures t.name == name && t.email == email && t.password == password && t.teacherId == teacherId
  {
    Teacher(id, name, email, password, teacherId, subjects.GetOr([]), Undefined, None,
            registrationDate.GetOr(now), false, None, None)
  }

  /** The schema's `required: true` string fields are present and, as the
      store's validator demands of required strings, not empty. (A
      `password` always holds a digest or a function's text, never an empty
      string.) */
  predicate StudentRequiredPresent(s: Student)
  {
    s.name != "" && s.email != "" && s.studentId != ""
  }

  predicate TeacherRequiredPresent(t: Teacher)
  {
    t.name != "" && t.email != "" && t.teacherId != ""
  }

  /** The Student collection's unique indexes on `email` and
      `studentDetails.studentId`, with the collection keyed by email. */
  predicate StudentKeysUnique(students: map<string, Student>)
  {
    && (forall e :: e in students ==> students[e].email == e)
    && (forall e1, e2 :: e1 in students && e2 in students && students[e1].studentId == students[e2].studentId ==> e1 == e2)
  }

  /** The Teacher collection's unique indexes on `email` and
      `teacherDetails.teacherId`. */
  predicate TeacherKeysUnique(teachers: map<string, Teacher>)
  {
    && (forall e :: e in teachers ==> teachers[e].email == e)
    && (forall e1, e2 :: e1 in teachers && e2 in teachers && teachers[e1].teacherId == teachers[e2].teacherId ==> e1 == e2)
  }

  /** Would inserting `s` break a unique index of the Student collection? */
  predicate StudentDuplicateKey(students: map<string, Student>, s: Student)
  {
    exists e :: e in students && (students[e].email == s.email || students[e].studentId == s.studentId)
  }

  predicate TeacherDuplicateKey(teachers: map<string, Teacher>, t: Teacher)
  {
    exists e :: e in teachers && (teachers[e].email == t.email || teachers[e].teacherId == t.teacherId)
  }

  datatype SaveError = ValidationError | DuplicateKey

  datatype SaveResult<T> = Saved(collection: T) | Rejected(error: SaveError)

  /** `save()` of a new Student document: the schema's validator first,
      then the collection's unique indexes. A saved collection keeps both
      indexes and holds the new document under its email. */
  function InsertStudent(students: map<string, Student>, s: Student): (r: SaveResult<map<string, Student>>)
    requires StudentKeysUnique(students)
    ensures r == Rejected(ValidationError) <==> !StudentRequiredPresent(s)
    ensures r == Rejected(DuplicateKey) <==> StudentRequiredPresent(s) && StudentDuplicateKey(students, s)
    ensures r.Saved? ==> StudentKeysUnique(r.collection) && r.collection == students[s.email := s] && s.email !in students
  {
    if !StudentRequiredPresent(s) then Rejected(ValidationError)
    else if StudentDuplicateKey(students, s) then Rejected(DuplicateKey)
    else Saved(students[s.email := s])
  }

  /** `save()` of a new Teacher document. */
  function InsertTeacher(teachers: map<string, Teacher>, t: Teacher): (r: SaveResult<map<string, Teacher>>)
    requires TeacherKeysUnique(teachers)
    ensures r == Rejected(ValidationError) <==> !TeacherRequiredPresent(t)
    ensures r == Rejected(DuplicateKey) <==> TeacherRequiredPresent(t) && TeacherDuplicateKey(teachers, t)
    ensures r.Saved? ==> TeacherKeysUnique(r.collection) && r.collection == teachers[t.email := t] && t.email !in teachers
  {
    if !TeacherRequiredPresent(t) then Rejected(ValidationError)
    else if TeacherDuplicateKey(teachers, t) then Rejected(DuplicateKey)
    else Saved(teachers[t.email := t])
  }

  // ---------------------------------------------------------------------
  // Per-record invariants kept by the handlers
  // ---------------------------------------------------------------------

  /** A student's `otp` and `otpExpiration` are set together and cleared
      together. */
  predicate StudentOtpPaired(s: Student)
  {
    (s.otp == Undefined && s.otpExpiration.None?) || (s.otp.Str? && s.otpExpiration.Some?)
  }

  /** A teacher's stored code always comes with an expiry, and an expiry
      never outlives every code: verification nulls the code but keeps the
      expiry, so a verified teacher may hold `null` beside a past expiry. */
  predicate TeacherOtpLinked(t: Teacher)
  {
    (t.otp.Str? ==> t.otpExpiration.Some?) && (t.otpExpiration.Some? ==> t.otp != Undefined)
  }

  /** The reset digest and its expiry are set and cleared together. */
  predicate StudentResetPaired(s: Student)
  {
    s.resetPasswordToken.Some? <==> s.resetPasswordExpires.Some?
  }

  predicate TeacherResetPaired(t: Teacher)
  {
    t.resetPasswordToken.Some? <==> t.resetPasswordExpires.Some?
  }

  /** Where a principal stands in the login lifecycle. */
  datatype Phase = Registered | OtpPending | Active

  function StudentPhase(s: Student): Phase
  {
    if s.isActive then Active else if s.otp.Str? then OtpPending else Registered
  }

  function TeacherPhase(t: Teacher): Phase
  {
    if t.isActive then Active else if t.otp.Str? then OtpPending else Registered
  }
}
