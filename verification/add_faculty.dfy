/** The admin faculty-management page: the faculty list with its case-insensitive search,
    and the form that puts a new faculty member at the top of the list. */
module AddFaculty {
  import opened Seqs
  import opened Strings

  datatype Faculty = Faculty(id: string, name: string, subject: string, section: string, email: string,
                             mobile: string, address: string)

  datatype FacultyForm = FacultyForm(name: string, subject: string, section: string, email: string,
                                     password: string, mobile: string, address: string)

  /** The form's inputs, one per field it edits. */
  datatype Field = Name | Subject | Section | Email | Password | Mobile | Address

  datatype View = List | Add

  const EmptyForm := FacultyForm("", "", "", "", "", "", "")

  const DemoFaculty: seq<Faculty> := [
    Faculty("1", "Prof. Ravi Shankar", "Data Structures", "CSE-A", "ravi@pvkk.edu", "9876543210", "Kurnool, AP"),
    Faculty("2", "Dr. Priya Nair", "Mathematics", "ECE-B", "priya@pvkk.edu", "9876543211", "Hyderabad, TS"),
    Faculty("3", "Prof. Suresh Kumar", "Physics", "MECH-A", "suresh@pvkk.edu", "9876543212", "Vijayawada, AP"),
    Faculty("4", "Dr. Kavitha Reddy", "DBMS", "CSE-C", "kavitha@pvkk.edu", "9876543213", "Guntur, AP")
  ]

  function Get(f: FacultyForm, field: Field): string
  {
    match field
    case Name => f.name
    case Subject => f.subject
    case Section => f.section
    case Email => f.email
    case Password => f.password
    case Mobile => f.mobile
    case Address => f.address
  }

  /** `setForm(prev => ({ ...prev, [key]: value }))`: that input now reads `value`, every
      other input keeps what it had. */
  function WithField(f: FacultyForm, field: Field, value: string): (r: FacultyForm)
    ensures Get(r, field) == value
    ensures forall g :: g != field ==> Get(r, g) == Get(f, g)
  {
    match field
    case Name => f.(name := value)
    case Subject => f.(subject := value)
    case Section => f.(section := value)
    case Email => f.(email := value)
    case Password => f.(password := value)
    case Mobile => f.(mobile := value)
    case Address => f.(address := value)
  }

  /** The record `{ ...form, id }` adds; the form's password is not part of a listed member. */
  function NewFaculty(f: FacultyForm, id: string): Faculty
  {
    Faculty(id, f.name, f.subject, f.section, f.email, f.mobile, f.address)
  }

  /** A member is listed when the lower-cased search text occurs in the lower-cased name,
      subject or section. */
  predicate MatchesSearch(m: Faculty, search: string)
  {
    var q := ToLower(search);
    Contains(ToLower(m.name), q) || Contains(ToLower(m.subject), q) || Contains(ToLower(m.section), q)
  }

  /** The `filtered` list: the matching members in list order; everybody for an empty search. */
  function Filtered(facultyList: seq<Faculty>, search: string): (r: seq<Faculty>)
    ensures IsSubsequence(r, facultyList)
    ensures forall i :: 0 <= i < |r| ==> MatchesSearch(r[i], search)
    ensures forall s :: s in r <==> s in facultyList && MatchesSearch(s, search)
    ensures forall s :: multiset(r)[s] == if MatchesSearch(s, search) then multiset(facultyList)[s] else 0
    ensures search == "" ==> r == facultyList
  {
    FilterCounts(facultyList, (s: Faculty) => MatchesSearch(s, search));
    FilterMembership(facultyList, (s: Faculty) => MatchesSearch(s, search));
    EmptySearchMatchesAll(facultyList);
    Filter(facultyList, (s: Faculty) => MatchesSearch(s, search))
  }

  lemma EmptySearchMatchesAll(facultyList: seq<Faculty>)
    ensures forall i :: 0 <= i < |facultyList| ==> MatchesSearch(facultyList[i], "")
  {
    forall i | 0 <= i < |facultyList| ensures MatchesSearch(facultyList[i], "") {
      ContainsEmpty(ToLower(facultyList[i].name));
    }
  }

  /** The search ignores case: queries that agree once lower-cased list the same members,
      and so does a query and its lower-cased form. */
  lemma SearchIgnoresCase(facultyList: seq<Faculty>, a: string, b: string)
    ensures ToLower(a) == ToLower(b) ==> Filtered(facultyList, a) == Filtered(facultyList, b)
    ensures Filtered(facultyList, ToLower(a)) == Filtered(facultyList, a)
  {
    ToLowerIdempotent(a);
    if ToLower(a) == ToLower(b) {
      FilterSameTest(facultyList, (m: Faculty) => MatchesSearch(m, a), (m: Faculty) => MatchesSearch(m, b));
    }
    FilterSameTest(facultyList, (m: Faculty) => MatchesSearch(m, ToLower(a)), (m: Faculty) => MatchesSearch(m, a));
  }

  /** A newly added member is found again by searching for their own name. */
  lemma AddedFoundByName(facultyList: seq<Faculty>, f: FacultyForm, id: string)
    ensures NewFaculty(f, id) in Filtered([NewFaculty(f, id)] + facultyList, f.name)
  {
    var q := ToLower(f.name);
    assert IsPrefix(q, q);
    assert MatchesSearch(NewFaculty(f, id), f.name);
  }

  /** The page's state. The search box renders only in the list view, the form with its
      Save and Cancel buttons only in the add view; a handler for a control that is not on
      screen changes nothing. `pendingTimers` counts the two-second timers that successful
      saves have started and that have not fired yet. */
  class FacultyDirectory {
    var view: View
    /** The "added successfully" banner. */
    var saved: bool
    var search: string
    var facultyList: seq<Faculty>
    var form: FacultyForm
    var pendingTimers: nat

    /** The banner is never left on without a timer that will take it down. */
    ghost predicate Valid()
      reads this
    {
      saved ==> pendingTimers > 0
    }

    constructor ()
      ensures Valid()
      ensures view == List && !saved && search == "" && facultyList == DemoFaculty && form == EmptyForm
      ensures pendingTimers == 0
    {
      view := List;
      saved := false;
      search := "";
      facultyList := DemoFaculty;
      form := EmptyForm;
      pendingTimers := 0;
    }

    /** The header button: list and form swap. */
    method ToggleView()
      requires Valid()
      modifies this
      ensures Valid()
      ensures view == (if old(view) == List then Add else List)
      ensures saved == old(saved) && search == old(search) && facultyList == old(facultyList) && form == old(form)
      ensures pendingTimers == old(pendingTimers)
    {
      view := if view == List then Add else List;
    }

    /** The form's Cancel button. */
    method Cancel()
      requires Valid()
      modifies this
      ensures Valid()
      ensures view == List
      ensures saved == old(saved) && search == old(search) && facultyList == old(facultyList) && form == old(form)
      ensures pendingTimers == old(pendingTimers)
    {
      if view == Add {
        view := List;
      }
    }

    /** The search box of the list view. */
    method SetSearch(text: string)
      requires Valid()
      modifies this
      ensures Valid()
      ensures search == (if old(view) == List then text else old(search))
      ensures view == old(view) && saved == old(saved) && facultyList == old(facultyList) && form == old(form)
      ensures pendingTimers == old(pendingTimers)
    {
      if view == List {
        search := text;
      }
    }

    /** An input of the form. */
    method EditField(field: Field, value: string)
      requires Valid()
      modifies this
      ensures Valid()
      ensures form == (if old(view) == Add then WithField(old(form), field, value) else old(form))
      ensures view == old(view) && saved == old(saved) && search == old(search) && facultyList == old(facultyList)
      ensures pendingTimers == old(pendingTimers)
    {
      if view == Add {
        form := WithField(form, field, value);
      }
    }

    /** `handleSave`, the form's submit: with a name and an e-mail, the form's member (under
        the given fresh id) goes to the top of the list, the banner shows and a timer starts;
        otherwise nothing happens. */
    method HandleSave(id: string)
      requires Valid()
      modifies this
      ensures Valid()
      ensures old(view) == Add && old(form.name) != "" && old(form.email) != "" ==>
                facultyList == [NewFaculty(old(form), id)] + old(facultyList) && saved
                && |facultyList| == |old(facultyList)| + 1 && pendingTimers == old(pendingTimers) + 1
      ensures !(old(view) == Add && old(form.name) != "" && old(form.email) != "") ==>
                facultyList == old(facultyList) && saved == old(saved) && pendingTimers == old(pendingTimers)
      ensures view == old(view) && search == old(search) && form == old(form)
    {
      if view != Add || form.name == "" || form.email == "" {
        return;
      }
      facultyList := [NewFaculty(form, id)] + facultyList;
      saved := true;
      pendingTimers := pendingTimers + 1;
    }

    /** One of the started timers fires: the banner goes, the list shows again and the
        form is cleared. Without a pending timer nothing fires. */
    method SaveTimerFired()
      requires Valid()
      modifies this
      ensures Valid()
      ensures old(pendingTimers) > 0 ==>
                !saved && view == List && form == EmptyForm && pendingTimers == old(pendingTimers) - 1
      ensures old(pendingTimers) == 0 ==>
                saved == old(saved) && view == old(view) && form == old(form) && pendingTimers == 0
      ensures search == old(search) && facultyList == old(facultyList)
    {
      if pendingTimers > 0 {
        saved := false;
        view := List;
        form := EmptyForm;
        pendingTimers := pendingTimers - 1;
      }
    }
  }
}
