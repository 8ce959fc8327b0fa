/** The student attendance report: totals over the subjects, the per-subject absence count,
    the Eligible / At Risk / Detained badge, and the "need N more classes" hint. */
module StudentAttendance {
  import opened Seqs

  /** One subject's record; `pct` is the stored integer percentage shown on the page. */
  datatype SubjectAttendance = SubjectAttendance(subject: string, faculty: string, classes: int, attended: int, pct: int)

  datatype Badge = Eligible | AtRisk | Detained

  const EligiblePct := 75
  const AtRiskPct := 65

  /** The subjects listed on the page. */
  const SubjectTable: seq<SubjectAttendance> := [
    SubjectAttendance("Data Structures", "Prof. Ravi Shankar", 45, 40, 89),
    SubjectAttendance("Mathematics", "Dr. Priya Nair", 38, 30, 79),
    SubjectAttendance("Physics", "Prof. Suresh Kumar", 32, 22, 69),
    SubjectAttendance("DBMS", "Dr. Kavitha Reddy", 28, 26, 93),
    SubjectAttendance("Networks", "Prof. Ravi Shankar", 30, 25, 83)
  ]

  function ClassesOf(s: SubjectAttendance): int { s.classes }

  function AttendedOf(s: SubjectAttendance): int { s.attended }

  /** Absences of one subject: `s.classes - s.attended`. */
  function AbsentOf(s: SubjectAttendance): int { s.classes - s.attended }

  function TotalClasses(rows: seq<SubjectAttendance>): int { Sum(rows, ClassesOf) }

  function TotalAttended(rows: seq<SubjectAttendance>): int { Sum(rows, AttendedOf) }

  /** The "Absent" card: `totalClasses - totalAttended`. */
  function TotalAbsent(rows: seq<SubjectAttendance>): (r: int)
    ensures r == Sum(rows, AbsentOf)
    ensures (forall i :: 0 <= i < |rows| ==> rows[i].attended <= rows[i].classes) ==> r >= 0
  {
    SumDifference(rows, ClassesOf, AttendedOf, AbsentOf);
    SumNonNegative(rows, AbsentOf);
    TotalClasses(rows) - TotalAttended(rows)
  }

  /** The subject badge. */
  function BadgeFor(pct: int): (b: Badge)
    ensures b == Eligible <==> pct >= EligiblePct
    ensures b == AtRisk <==> AtRiskPct <= pct < EligiblePct
    ensures b == Detained <==> pct < AtRiskPct
  {
    if pct >= EligiblePct then Eligible else if pct >= AtRiskPct then AtRisk else Detained
  }

  function Rank(b: Badge): nat
  {
    match b
    case Detained => 0
    case AtRisk => 1
    case Eligible => 2
  }

  /** A higher percentage never earns a worse badge. */
  lemma BadgeMonotone(pct: int, higher: int)
    requires pct <= higher
    ensures Rank(BadgeFor(pct)) <= Rank(BadgeFor(higher))
  {
  }

  /** The hint is shown for `pct < 75`. */
  predicate ShowsShortfall(pct: int)
  {
    pct < EligiblePct
  }

  /** The hint appears exactly on subjects that are not Eligible. */
  lemma ShortfallIffNotEligible(pct: int)
    ensures ShowsShortfall(pct) <==> BadgeFor(pct) != Eligible
  {
  }

  /** `Math.ceil(x / d)` for a positive divisor: the least integer at least x/d. */
  function CeilDiv(x: int, d: int): (r: int)
    requires d > 0
    ensures d * r >= x && d * (r - 1) < x
  {
    -((-x) / d)
  }

  /** `Math.ceil((75 * classes - 100 * attended) / 25)`. */
  function ClassesNeeded(classes: int, attended: int): int
  {
    CeilDiv(75 * classes - 100 * attended, 25)
  }

  /** The numerator is a multiple of 25, so the hint is exactly `3 * classes - 4 * attended`. */
  lemma ClassesNeededExact(classes: int, attended: int)
    ensures ClassesNeeded(classes, attended) == 3 * classes - 4 * attended
  {
    var n := ClassesNeeded(classes, attended);
    assert 75 * classes - 100 * attended == 25 * (3 * classes - 4 * attended);
    assert 25 * n >= 25 * (3 * classes - 4 * attended) && 25 * (n - 1) < 25 * (3 * classes - 4 * attended);
  }

  /** Below 75%, attending the hinted number N of further classes (attended + N out of
      classes + N) reaches 75%, and one class fewer does not. */
  lemma ClassesNeededIsMinimal(classes: int, attended: int)
    requires 100 * attended < 75 * classes
    ensures ClassesNeeded(classes, attended) >= 1
    ensures var n := ClassesNeeded(classes, attended);
            100 * (attended + n) >= 75 * (classes + n)
            && 100 * (attended + n - 1) < 75 * (classes + n - 1)
  {
    ClassesNeededExact(classes, attended);
  }

  /** The page's figures: 173 classes, 143 attended, 30 absent; Physics is the only subject
      below 75%, it is At Risk, and the hint asks for 8 more classes. */
  lemma ReportFigures()
    ensures TotalClasses(SubjectTable) == 173 && TotalAttended(SubjectTable) == 143
    ensures TotalAbsent(SubjectTable) == 30
    ensures forall i :: 0 <= i < |SubjectTable| ==> (ShowsShortfall(SubjectTable[i].pct) <==> i == 2)
    ensures BadgeFor(SubjectTable[2].pct) == AtRisk
    ensures ClassesNeeded(SubjectTable[2].classes, SubjectTable[2].attended) == 8
  {
    assert SubjectTable == [SubjectTable[0], SubjectTable[1], SubjectTable[2], SubjectTable[3], SubjectTable[4]];
    ClassesNeededExact(32, 22);
  }
}
