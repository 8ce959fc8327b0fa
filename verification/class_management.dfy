/** The faculty class-management page: an attendance sheet over the section's students
    that starts from the stored marks (present by default), per-student toggles, the
    present/absent counters, and a message box that refuses blank messages. */
module ClassManagement {
  import opened Seqs
  import opened Strings

  datatype Mark = Present | Absent

  /** A fetched student row; `attendance` is the stored mark, if any. */
  datatype StudentRow = StudentRow(id: string, name: string, rollNumber: string, section: string,
                                   attendance: Option<Mark>)

  /** A row this page inserts into the class messages table. */
  datatype ClassMessage = ClassMessage(text: string, section: string)

  /** `s.attendance || "present"`. */
  function StoredOrPresent(s: StudentRow): Mark
  {
    if s.attendance.Some? then s.attendance.value else Present
  }

  function Ids(data: seq<StudentRow>): set<string>
  {
    set i | 0 <= i < |data| :: data[i].id
  }

  /** No later row has the same id as row `i`, so row `i` is the one `fromEntries` keeps. */
  predicate IsLastWithId(data: seq<StudentRow>, i: int)
    requires 0 <= i < |data|
  {
    forall j :: i < j < |data| ==> data[j].id != data[i].id
  }

  /** The ids of a list are those of all but its last row plus the last row's. */
  lemma IdsSnoc(data: seq<StudentRow>)
    requires data != []
    ensures Ids(data) == Ids(data[..|data| - 1]) + {data[|data| - 1].id}
  {
    var init := data[..|data| - 1];
    forall id | id in Ids(data) ensures id in Ids(init) + {data[|data| - 1].id} {
      var i :| 0 <= i < |data| && data[i].id == id;
      if i < |data| - 1 { assert init[i] == data[i]; }
    }
    forall id | id in Ids(init) ensures id in Ids(data) {
      var i :| 0 <= i < |init| && init[i].id == id;
      assert data[i] == init[i];
    }
  }

  /** `Object.fromEntries(data.map(s => [s.id, s.attendance || "present"]))`: one entry per
      fetched id, entered in list order, so that a repeated id keeps its last row's mark. */
  function InitialAttendance(data: seq<StudentRow>): (m: map<string, Mark>)
    ensures m.Keys == Ids(data)
    decreases |data|
  {
    if data == [] then map[]
    else
      var last := data[|data| - 1];
      IdsSnoc(data);
      InitialAttendance(data[..|data| - 1])[last.id := StoredOrPresent(last)]
  }

  /** Each id's entry is the stored mark of the last row carrying it, or present when
      that row has none. */
  lemma {:induction false} InitialAttendanceLastWins(data: seq<StudentRow>, i: int)
    requires 0 <= i < |data| && IsLastWithId(data, i)
    ensures InitialAttendance(data)[data[i].id] == StoredOrPresent(data[i])
    decreases |data|
  {
    var init := data[..|data| - 1];
    if i < |data| - 1 {
      assert init[i] == data[i];
      assert IsLastWithId(init, i);
      InitialAttendanceLastWins(init, i);
    }
  }

  /** `toggleAttendance(id)`: "present" becomes "absent", anything else (also a missing
      entry) becomes "present"; no other entry changes. */
  function Toggled(m: map<string, Mark>, id: string): (r: map<string, Mark>)
    ensures r.Keys == m.Keys + {id}
    ensures r[id] == Present <==> !(id in m && m[id] == Present)
    ensures forall k :: k in m && k != id ==> r[k] == m[k]
  {
    m[id := if id in m && m[id] == Present then Absent else Present]
  }

  /** Toggling the same student twice restores the sheet. */
  lemma ToggleTwice(m: map<string, Mark>, id: string)
    requires id in m
    ensures Toggled(Toggled(m, id), id) == m
  {
    var once := Toggled(m, id);
    assert once[id] != m[id];
    assert Toggled(once, id)[id] == m[id];
  }

  function MarkedAs(m: map<string, Mark>, mark: Mark): set<string>
  {
    set k | k in m && m[k] == mark
  }

  /** `Object.values(attendance).filter(v => v === "present").length`. */
  function PresentCount(m: map<string, Mark>): nat
  {
    |MarkedAs(m, Present)|
  }

  /** `students.length - presentCount`. */
  function AbsentCount(students: seq<StudentRow>, m: map<string, Mark>): int
  {
    |students| - PresentCount(m)
  }

  /** A toggle moves exactly one student between the two counters. */
  lemma ToggleMovesOne(m: map<string, Mark>, id: string)
    requires id in m
    ensures PresentCount(Toggled(m, id)) == PresentCount(m) + (if m[id] == Present then -1 else 1)
  {
    var r := Toggled(m, id);
    if m[id] == Present {
      assert MarkedAs(r, Present) == MarkedAs(m, Present) - {id};
    } else {
      assert MarkedAs(r, Present) == MarkedAs(m, Present) + {id};
    }
  }

  predicate DistinctIds(data: seq<StudentRow>)
  {
    forall i, j :: 0 <= i < j < |data| ==> data[i].id != data[j].id
  }

  lemma {:induction false} DistinctIdsCount(data: seq<StudentRow>)
    requires DistinctIds(data)
    ensures |Ids(data)| == |data|
    decreases |data|
  {
    if data != [] {
      var init := data[..|data| - 1];
      DistinctIdsCount(init);
      IdsSnoc(data);
      assert data[|data| - 1].id !in Ids(init);
    }
  }

  /** When the sheet has one entry per student (distinct ids), the "Absent" counter is the
      number of students marked absent; in particular the counters never go negative and
      add up to the class size. */
  lemma AbsentCountIsAbsentees(students: seq<StudentRow>, m: map<string, Mark>)
    requires DistinctIds(students) && m.Keys == Ids(students)
    ensures AbsentCount(students, m) == |MarkedAs(m, Absent)| >= 0
    ensures PresentCount(m) + |MarkedAs(m, Absent)| == |students|
  {
    DistinctIdsCount(students);
    var p, a := MarkedAs(m, Present), MarkedAs(m, Absent);
    assert p + a == m.Keys by {
      forall k | k in m.Keys ensures k in p + a {
        if m[k] == Present { assert k in p; } else { assert k in a; }
      }
    }
    assert p * a == {};
  }

  /** The page's state. The sheet has exactly one entry per listed student id, and a
      toggle button exists only on a listed student's row. */
  class ClassManagementPage {
    /** The section this page manages. */
    const section: string
    var students: seq<StudentRow>
    var attendance: map<string, Mark>
    /** The message box. */
    var message: string
    /** Messages this page has inserted, oldest first. */
    var outbox: seq<ClassMessage>

    ghost predicate Valid()
      reads this
    {
      attendance.Keys == Ids(students)
    }

    constructor (section: string)
      ensures Valid()
      ensures this.section == section
      ensures students == [] && attendance == map[] && message == "" && outbox == []
    {
      this.section := section;
      students := [];
      attendance := map[];
      message := "";
      outbox := [];
    }

    /** The successful branch of `fetchStudents`. */
    method StudentsLoaded(data: seq<StudentRow>)
      modifies this
      ensures Valid()
      ensures students == data && attendance == InitialAttendance(data)
      ensures message == old(message) && outbox == old(outbox)
    {
      students := data;
      attendance := InitialAttendance(data);
    }

    /** The toggle button on the row of student `id`; a student not on the list has no
        button. The present counter moves by exactly one. */
    method ToggleAttendance(id: string)
      requires Valid()
      modifies this
      ensures Valid()
      ensures id in Ids(old(students)) ==> attendance == Toggled(old(attendance), id)
      ensures id in Ids(old(students)) ==>
                PresentCount(attendance) == PresentCount(old(attendance)) + (if old(attendance)[id] == Present then -1 else 1)
      ensures id !in Ids(old(students)) ==> attendance == old(attendance)
      ensures students == old(students) && message == old(message) && outbox == old(outbox)
    {
      if id in attendance {
        ToggleMovesOne(attendance, id);
        var next := if attendance[id] == Present then Absent else Present;
        attendance := attendance[id := next];
      }
    }

    /** The "Present" and "Absent" counters. With distinct student ids they split the class:
        the absent counter is the number of students marked absent. */
    function Counters(): (c: (int, int))
      requires Valid() && DistinctIds(students)
      reads this
      ensures c.0 == |MarkedAs(attendance, Present)| && c.1 == |MarkedAs(attendance, Absent)|
      ensures c.0 + c.1 == |students|
    {
      AbsentCountIsAbsentees(students, attendance);
      (PresentCount(attendance), AbsentCount(students, attendance))
    }

    /** The message input's change handler. */
    method SetMessage(text: string)
      requires Valid()
      modifies this
      ensures Valid()
      ensures message == text
      ensures students == old(students) && attendance == old(attendance) && outbox == old(outbox)
    {
      message := text;
    }

    /** `sendMessage`: a blank message (empty or white space only) is ignored; otherwise it is
        inserted for the section and the box is cleared. */
    method SendMessage()
      requires Valid()
      modifies this
      ensures Valid()
      ensures IsBlank(old(message)) ==> message == old(message) && outbox == old(outbox)
      ensures !IsBlank(old(message)) ==>
                outbox == old(outbox) + [ClassMessage(old(message), section)] && message == ""
      ensures students == old(students) && attendance == old(attendance)
    {
      TrimEmptyIffBlank(message);
      if Trim(message) == "" {
        return;
      }
      outbox := outbox + [ClassMessage(message, section)];
      message := "";
    }
  }
}
