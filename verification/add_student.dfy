/** The admin student-management page: the student list with its case-insensitive search,
    and the enrolment form that puts a new student at the top of the list. */
module AddStudent {
  import opened Seqs
  import opened Strings

  datatype Student = Student(id: string, name: string, year: string, branch: string, section: string,
                             rollNumber: string, email: string, mobile: string, parentMobile: string,
                             address: string)

  datatype StudentForm = StudentForm(name: string, year: string, branch: string, section: string,
                                     rollNumber: string, email: string, password: string, mobile: string,
                                     parentMobile: string, address: string)

  /** The form's inputs, one per field it edits. */
  datatype Field = Name | Year | Branch | Section | RollNumber | Email | Password | Mobile | ParentMobile | Address

  datatype View = List | Add

  const EmptyForm := StudentForm("", "", "", "", "", "", "", "", "", "")

  const DemoStudents: seq<Student> := [
    Student("1", "Arjun Reddy", "2nd", "CSE", "CSE-A", "22CS001", "arjun@pvkk.edu", "9876501001", "9876501002", "Kurnool, AP"),
    Student("2", "Sneha Patel", "1st", "ECE", "ECE-A", "23EC021", "sneha@pvkk.edu", "9876501003", "9876501004", "Hyderabad, TS"),
    Student("3", "Rahul Sharma", "3rd", "MECH", "MECH-A", "21ME007", "rahul@pvkk.edu", "9876501005", "9876501006", "Vijayawada, AP"),
    Student("4", "Divya Krishna", "4th", "CIVIL", "CIVIL-A", "20CV003", "divya@pvkk.edu", "9876501007", "9876501008", "Guntur, AP")
  ]

  function Get(f: StudentForm, field: Field): string
  {
    match field
    case Name => f.name
    case Year => f.year
    case Branch => f.branch
    case Section => f.section
    case RollNumber => f.rollNumber
    case Email => f.email
    case Password => f.password
    case Mobile => f.mobile
    case ParentMobile => f.parentMobile
    case Address => f.address
  }

  /** `setForm(prev => ({ ...prev, [key]: value }))`: that input now reads `value`, every
      other input keeps what it had. */
  function WithField(f: StudentForm, field: Field, value: string): (r: StudentForm)
    ensures Get(r, field) == value
    ensures forall g :: g != field ==> Get(r, g) == Get(f, g)
  {
    match field
    case Name => f.(name := value)
    case Year => f.(year := value)
    case Branch => f.(branch := value)
    case Section => f.(section := value)
    case RollNumber => f.(rollNumber := value)
    case Email => f.(email := value)
    case Password => f.(password := value)
    case Mobile => f.(mobile := value)
    case ParentMobile => f.(parentMobile := value)
    case Address => f.(address := value)
  }

  /** The record `{ ...form, id }` enrols; the form's password is not part of a listed student. */
  function NewStudent(f: StudentForm, id: string): Student
  {
    Student(id, f.name, f.year, f.branch, f.section, f.rollNumber, f.email, f.mobile, f.parentMobile, f.address)
  }

  /** A student is listed when the lower-cased search text occurs in the lower-cased name,
      roll number or branch. */
  predicate MatchesSearch(s: Student, search: string)
  {
    var q := ToLower(search);
    Contains(ToLower(s.name), q) || Contains(ToLower(s.rollNumber), q) || Contains(ToLower(s.branch), q)
  }

  /** The `filtered` list: the matching students in list order; everybody for an empty search. */
  function Filtered(students: seq<Student>, search: string): (r: seq<Student>)
    ensures IsSubsequence(r, students)
    ensures forall i :: 0 <= i < |r| ==> MatchesSearch(r[i], search)
    ensures forall s :: s in r <==> s in students && MatchesSearch(s, search)
    ensures forall s :: multiset(r)[s] == if MatchesSearch(s, search) then multiset(students)[s] else 0
    ensures search == "" ==> r == students
  {
    FilterCounts(students, (s: Student) => MatchesSearch(s, search));
    FilterMembership(students, (s: Student) => MatchesSearch(s, search));
    EmptySearchMatchesAll(students);
    Filter(students, (s: Student) => MatchesSearch(s, search))
  }

  lemma EmptySearchMatchesAll(students: seq<Student>)
    ensures forall i :: 0 <= i < |students| ==> MatchesSearch(students[i], "")
  {
    forall i | 0 <= i < |students| ensures MatchesSearch(students[i], "") {
      ContainsEmpty(ToLower(students[i].name));
    }
  }

  /** The search ignores case: queries that agree once lower-cased, such as "ARJ" and
      "arj", list the same students, and so does a query and its lower-cased form. */
  lemma SearchIgnoresCase(students: seq<Student>, a: string, b: string)
    ensures ToLower(a) == ToLower(b) ==> Filtered(students, a) == Filtered(students, b)
    ensures Filtered(students, ToLower(a)) == Filtered(students, a)
  {
    ToLowerIdempotent(a);
    if ToLower(a) == ToLower(b) {
      FilterSameTest(students, (s: Student) => MatchesSearch(s, a), (s: Student) => MatchesSearch(s, b));
    }
    FilterSameTest(students, (s: Student) => MatchesSearch(s, ToLower(a)), (s: Student) => MatchesSearch(s, a));
  }

  /** A newly enrolled student is found again by searching for their own name. */
  lemma EnrolledFoundByName(students: seq<Student>, f: StudentForm, id: string)
    ensures NewStudent(f, id) in Filtered([NewStudent(f, id)] + students, f.name)
  {
    var q := ToLower(f.name);
    assert IsPrefix(q, q);
    assert MatchesSearch(NewStudent(f, id), f.name);
  }

  /** The page's state. The search box renders only in the list view, the form with its
      Save and Cancel buttons only in the add view; a handler for a control that is not on
      screen changes nothing. `pendingTimers` counts the two-second timers that successful
      saves have started and that have not fired yet. */
  class StudentDirectory {
    var view: View
    /** The "enrolled successfully" banner. */
    var saved: bool
    var search: string
    var students: seq<Student>
    var form: StudentForm
    var pendingTimers: nat

    /** The banner is never left on without a timer that will take it down. */
    ghost predicate Valid()
      reads this
    {
      saved ==> pendingTimers > 0
    }

    constructor ()
      ensures Valid()
      ensures view == List && !saved && search == "" && students == DemoStudents && form == EmptyForm
      ensures pendingTimers == 0
    {
      view := List;
      saved := false;
      search := "";
      students := DemoStudents;
      form := EmptyForm;
      pendingTimers := 0;
    }

    /** The header button: list and form swap. */
    method ToggleView()
      requires Valid()
      modifies this
      ensures Valid()
      ensures view == (if old(view) == List then Add else List)
      ensures saved == old(saved) && search == old(search) && students == old(students) && form == old(form)
      ensures pendingTimers == old(pendingTimers)
    {
      view := if view == List then Add else List;
    }

    /** The form's Cancel button. */
    method Cancel()
      requires Valid()
      modifies this
      ensures Valid()
      ensures view == List
      ensures saved == old(saved) && search == old(search) && students == old(students) && form == old(form)
      ensures pendingTimers == old(pendingTimers)
    {
      if view == Add {
        view := List;
      }
    }

    /** The search box of the list view. */
    method SetSearch(text: string)
      requires Valid()
      modifies this
      ensures Valid()
      ensures search == (if old(view) == List then text else old(search))
      ensures view == old(view) && saved == old(saved) && students == old(students) && form == old(form)
      ensures pendingTimers == old(pendingTimers)
    {
      if view == List {
        search := text;
      }
    }

    /** An input of the form. */
    method EditField(field: Field, value: string)
      requires Valid()
      modifies this
      ensures Valid()
      ensures form == (if old(view) == Add then WithField(old(form), field, value) else old(form))
      ensures view == old(view) && saved == old(saved) && search == old(search) && students == old(students)
      ensures pendingTimers == old(pendingTimers)
    {
      if view == Add {
        form := WithField(form, field, value);
      }
    }

    /** `handleSave`, the form's submit: with a name and an e-mail, the form's student (under
        the given fresh id) goes to the top of the list, the banner shows and a timer starts;
        otherwise nothing happens. */
    method HandleSave(id: string)
      requires Valid()
      modifies this
      ensures Valid()
      ensures old(view) == Add && old(form.name) != "" && old(form.email) != "" ==>
                students == [NewStudent(old(form), id)] + old(students) && saved
                && |students| == |old(students)| + 1 && pendingTimers == old(pendingTimers) + 1
      ensures !(old(view) == Add && old(form.name) != "" && old(form.email) != "") ==>
                students == old(students) && saved == old(saved) && pendingTimers == old(pendingTimers)
      ensures view == old(view) && search == old(search) && form == old(form)
    {
      if view != Add || form.name == "" || form.email == "" {
        return;
      }
      students := [NewStudent(form, id)] + students;
      saved := true;
      pendingTimers := pendingTimers + 1;
    }

    /** One of the started timers fires: the banner goes, the list shows again and the
        form is cleared. Without a pending timer nothing fires. */
    method SaveTimerFired()
      requires Valid()
      modifies this
      ensures Valid()
      ensures old(pendingTimers) > 0 ==>
                !saved && view == List && form == EmptyForm && pendingTimers == old(pendingTimers) - 1
      ensures old(pendingTimers) == 0 ==>
                saved == old(saved) && view == old(view) && form == old(form) && pendingTimers == 0
      ensures search == old(search) && students == old(students)
    {
      if pendingTimers > 0 {
        saved := false;
        view := List;
        form := EmptyForm;
        pendingTimers := pendingTimers - 1;
      }
    }
  }
}
