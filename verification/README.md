# College portal pages: a Dafny model

This project models the client-side logic of a college management portal written as React
pages. The portal has admin, faculty and student roles. The model covers eight pieces:

- **Quiz** (`quiz.dfy`): the student's quiz session as a five-state machine.
  - The states are code entry, rules, active attempt, submitted, and auto-submitted after
    violations.
  - Entry needs a six-digit code.
  - An attempt has twenty questions with four options each and a ten-minute countdown.
  - Switching tabs counts as a violation; the third one ends the attempt.
  - One finalize routine scores the answers. The score sets attendance (Present at 16 or
    more) and the result (Pass at 12 or more).
- **Auth** (`auth.dfy`): demo sign-in against three mock users (admin, faculty, student),
  and sign-out.
- **FeeManagement** (`fee_management.dfy`): the admin fee summary (expected, collected,
  pending, defaulters), the per-record status badge and the receipt button.
- **StudentAttendance** (`student_attendance.dfy`): the student's attendance report.
  - It shows totals, per-subject absences and a badge: Eligible from 75 %, At Risk from 65 %,
    Detained below that.
  - Below 75 % it adds the hint "need N more classes".
- **ClassManagement** (`class_management.dfy`): the faculty attendance sheet.
  - It starts from the stored marks; present is the default.
  - It has per-student toggles and present/absent counters.
  - A class message box ignores blank messages.
- **AddStudent** and **AddFaculty** (`add_student.dfy`, `add_faculty.dfy`): the directories,
  each with a case-insensitive search and an enrolment form. A new record goes to the top of
  the list; a timer then clears the form.
- **StudentFees** (`student_fees.dfy`): the student's fee table, the "Pay Now" modal, the
  simulated payment and the success screen.

Two modules hold shared pieces:

- `seqs.dfy` (module `Seqs`): `Option`, `filter`, `find`, counting and summing, each with
  the lemmas relating them.
- `strings.dfy` (module `Strings`): digits, decimal rendering, `padStart`, ASCII
  `toLowerCase`, `includes`, `trim`, and the initials shown in avatar bubbles.

Three kinds of source become three kinds of Dafny:

- **Component state.** Components that keep state with `useState` become classes. Their
  fields are the state variables. Every event handler is a method, and its `ensures` gives
  the whole new state in terms of the old.
- **Hidden controls.** A button or input that only renders in some state becomes a branch
  that changes nothing in every other state. This holds for every page. Likewise, a timer
  callback does nothing unless a handler has started that timer. In the quiz, the
  six-character `maxLength` of the code input and the option and navigator ranges the page
  renders become preconditions.
- **Derived values.** Pure computations become functions with lemmas. These cover the
  filtered lists, the counters, the summaries and the formatted clock.

Quiz invariants. The quiz session keeps the invariant `Valid()`, which guarantees:

- A submitted or violation screen shows exactly the score of the recorded answers.
- The violation counter stays between 0 and 3, and its warning text matches it.
- An attempt always starts with no answers, on the first question, with no violations and a
  full clock.
- During an attempt the timer holds the empty answer sheet of the render that began it.

The session also records which answer sheet each subscribed handler holds. The timer
effect subscribes when `state` changes and keeps that render's answers. The visibility
effect also re-subscribes whenever `violations` changes. `TickAsWritten` and
`OnVisibilityChangeAsWritten` score those held sheets, as the page does. `Tick` and
`OnVisibilityChange` score the current answers, as intended.

`PerfectAttempt`, `TabSwitchesEndAttempt`, `TimeoutAsWrittenAndIntended` and
`ViolationAsWrittenAndIntended` drive a session through its handlers and prove what the user
then sees.

## Model

| member | source | states |
|---|---|---|
| Quiz.Score | src/pages/student/StudentQuiz.tsx:96 | the number of correct answers never exceeds the number of questions |
| Quiz.CorrectAmongIsCardinality | src/pages/student/StudentQuiz.tsx:96 | counting question by question gives the size of the set of correctly answered indices among the first n |
| Quiz.ScoreCountsCorrectAnswers | src/pages/student/StudentQuiz.tsx:96 | the score is the number of indices whose recorded answer equals the question's correct option; unanswered questions never count |
| Quiz.CorrectAmongAfterAnswer | src/pages/student/StudentQuiz.tsx:243 | recording option j for question i changes the prefix count only through question i |
| Quiz.ScoreAfterAnswer | src/pages/student/StudentQuiz.tsx:243 | selecting an option moves the score by at most one, exactly by question i's change; choosing the correct option never lowers it |
| Quiz.CorrectAmongNoAnswers | src/pages/student/StudentQuiz.tsx:39 | with no answers recorded, no prefix has a correct answer |
| Quiz.KeyPrefixStep | src/pages/student/StudentQuiz.tsx:243 | answering question n correctly extends the answer key of the first n questions to the first n+1 |
| Quiz.CorrectAmongAnswerKey | src/pages/student/StudentQuiz.tsx:96 | the answer key has every question of each prefix right |
| Quiz.ScoreExtremes | src/pages/student/StudentQuiz.tsx:96 | an empty answer sheet scores 0 and the answer key scores every question |
| Quiz.PresentImpliesPass | src/pages/student/StudentQuiz.tsx:327-333 | Present (score at least 16) implies Pass (at least 12); both verdicts are monotone in the score |
| Strings.TwoDigits | src/pages/student/StudentQuiz.tsx:115 | `padStart(2, "0")` of a number below 100 is its tens digit then its units digit |
| Quiz.FormatTime | src/pages/student/StudentQuiz.tsx:115 | below 100 minutes the display is minute tens, minute units, ':', second tens, second units |
| Quiz.FormatTimeReadsBack | src/pages/student/StudentQuiz.tsx:115 | every displayed time is a well-formed MM:SS clock that reads back as the same number of seconds |
| Strings.DigitsOnly | src/pages/student/StudentQuiz.tsx:142 | removing non-digits leaves only digits, in their original order, never more characters than given |
| Strings.DigitsOnlyCounts | src/pages/student/StudentQuiz.tsx:142 | each digit is kept exactly as often as it occurs; every other character is dropped |
| Strings.DigitsOnlyKeepsDigits | src/pages/student/StudentQuiz.tsx:142 | input that is already all digits passes through unchanged |
| Strings.NatToDecimal | src/pages/student/StudentQuiz.tsx:54 | a number's decimal text is a digit string without leading zeros that reads back as the number; it is one digit long exactly below 10 |
| Quiz.QuizSession.constructor | src/pages/student/StudentQuiz.tsx:36-44 | the page starts at code entry with empty code, no answers, question 0, 600 s, no violations, score 0 and no warning |
| Quiz.QuizSession.OnCodeInput | src/pages/student/StudentQuiz.tsx:140-142 | on the code screen, the code becomes the digits of the input and the error clears; nothing else changes |
| Quiz.QuizSession.EnterQuiz | src/pages/student/StudentQuiz.tsx:101-108 | the rules screen is reached iff the code is six digits; otherwise only the error text is set |
| Quiz.QuizSession.GoBack | src/pages/student/StudentQuiz.tsx:198 | from the rules screen back to code entry with everything else kept |
| Quiz.QuizSession.StartQuiz | src/pages/student/StudentQuiz.tsx:110-113 | from the rules screen the attempt becomes active with 600 s. By the invariant it starts with no answers, question 0 and no violations. Both effects subscribe holding this empty sheet |
| Quiz.QuizSession.Finalize | src/pages/student/StudentQuiz.tsx:94-99 | scores the answer sheet of the render the routine belongs to, and moves to the violation screen if forced, else to the submitted screen |
| Quiz.QuizSession.Tick | src/pages/student/StudentQuiz.tsx:80-92 | during an attempt the clock drops by one second; at one second or less it shows 0 and the attempt is submitted with its answers scored |
| Quiz.QuizSession.TickAsWritten | src/pages/student/StudentQuiz.tsx:80-92 | as written: the last second submits with the sheet held since the attempt began; because the invariant keeps that sheet empty during an attempt, every timeout records 0 |
| Quiz.QuizSession.OnVisibilityChange | src/pages/student/StudentQuiz.tsx:48-62 | a hidden page during an attempt adds a violation and shows the "n/3" warning; the third one auto-submits to the violation screen |
| Quiz.QuizSession.OnVisibilityChangeAsWritten | src/pages/student/StudentQuiz.tsx:48-62 | as written: each counted switch re-subscribes the listener with the current answers; the third switch scores the sheet held since the previous count |
| Quiz.QuizSession.SelectOption | src/pages/student/StudentQuiz.tsx:243 | records option j for the question on screen, replacing an earlier choice |
| Quiz.QuizSession.Prev | src/pages/student/StudentQuiz.tsx:263 | one question back, never below the first |
| Quiz.QuizSession.Next | src/pages/student/StudentQuiz.tsx:265-266 | one question forward before the last question; nothing on the last |
| Quiz.QuizSession.GoToQuestion | src/pages/student/StudentQuiz.tsx:278-279 | the navigator jumps to question i |
| Quiz.QuizSession.SubmitQuiz | src/pages/student/StudentQuiz.tsx:267-269 | on the last question, submits and scores the answers |
| Quiz.QuizSession.Reset | src/pages/student/StudentQuiz.tsx:298-345 | from either result screen back to code entry with a clean attempt; the old score stays until overwritten |
| Quiz.PerfectAttempt | src/pages/student/StudentQuiz.tsx:265-269 | code, rules, the correct option everywhere and Submit give 20/20, Present and Pass |
| Quiz.TabSwitchesEndAttempt | src/pages/student/StudentQuiz.tsx:48-62 | after two tab switches the attempt continues with warning 2/3; the third ends it on the violation screen |
| Quiz.BeginAttempt | src/pages/student/StudentQuiz.tsx:101-113 | typing a six-digit code, entering and confirming the rules starts an attempt with no answers, question 0, 600 s and no violations |
| Quiz.AnswerEveryQuestion | src/pages/student/StudentQuiz.tsx:243-266 | choosing the correct option on each question, with "Next" in between, records the answer key and leaves the last question on screen; nothing else changes, including the sheets the handlers hold |
| Quiz.TimeoutAsWrittenAndIntended | src/pages/student/StudentQuiz.tsx:80-99 | an attempt with every answer correct that runs out of time records 0 through `TickAsWritten` and 20 through the intended `Tick` |
| Quiz.ViolationAsWrittenAndIntended | src/pages/student/StudentQuiz.tsx:48-62 | two tab switches, then every answer correct, then a third switch: 0 through `OnVisibilityChangeAsWritten`, 20 through the intended `OnVisibilityChange` |
| Seqs.Find | src/context/AuthContext.tsx:62 | `find`: none iff no element satisfies the test; otherwise the first element that does |
| Auth.EveryRoleHasMockUser | src/context/AuthContext.tsx:30-55 | every role has a mock user, so the by-role lookup never fails |
| Auth.Authenticate | src/context/AuthContext.tsx:60-74 | someone signs in iff the password has at least 4 characters; that user is a mock user of the requested role, the e-mail match when there is one, else the first user of the role |
| Auth.AuthContext.constructor | src/context/AuthContext.tsx:58 | nobody is signed in at first |
| Auth.AuthContext.Login | src/context/AuthContext.tsx:60-74 | the answer is true exactly when `Authenticate` finds a user; on success that user is signed in; on failure the current user stays |
| Auth.AuthContext.Logout | src/context/AuthContext.tsx:76-79 | nobody is signed in and `isAuthenticated` is false |
| Seqs.Filter | src/pages/admin/FeeManagement.tsx:80-81 | `filter` keeps an in-order subsequence of elements that pass, and everything when everything passes |
| Seqs.FilterCounts | src/pages/admin/FeeManagement.tsx:80-81 | each kept value occurs as often as in the input; dropped values not at all |
| Seqs.FilterSameTest | src/pages/admin/AddStudent.tsx:41-45 | filtering with two tests that agree on every value gives the same list |
| Seqs.Count | src/pages/admin/FeeManagement.tsx:80-81 | the count is the length of the filtered list and at most the input's length |
| Seqs.SumAppend | src/pages/admin/FeeManagement.tsx:72-76 | a `reduce` sum over a concatenation is the sum of the parts |
| Seqs.SumDifference | src/pages/admin/FeeManagement.tsx:72-78 | the difference of two sums is the sum of the differences |
| Seqs.SumNonNegative | src/pages/student/StudentAttendance.tsx:47 | a sum of non-negative terms is non-negative |
| FeeManagement.CalculateSummary | src/pages/admin/FeeManagement.tsx:70-89 | pending is expected minus collected and equals the sum of every record's outstanding amount; defaulters are the records paid below their total, at most all records |
| FeeManagement.SummaryOfAppended | src/pages/admin/FeeManagement.tsx:72-81 | one more record adds exactly its total, its payment and (if underpaid) one defaulter |
| FeeManagement.CountAppend | src/pages/admin/FeeManagement.tsx:80-81 | the defaulter count grows by one exactly for an underpaid appended record |
| FeeManagement.PendingNeedsDefaulter | src/pages/admin/FeeManagement.tsx:78-81 | a positive pending amount implies at least one defaulter |
| FeeManagement.GetStatus | src/pages/admin/FeeManagement.tsx:93-98 | pending iff nothing paid; partial iff something paid below the total; paid iff something paid and at least the total |
| FeeManagement.StatusAgreesWithDefaulters | src/pages/admin/FeeManagement.tsx:80-98 | paid records are never defaulters, partial ones always are, pending ones exactly when their total is positive |
| FeeManagement.ReceiptIffSomethingPaid | src/pages/admin/FeeManagement.tsx:240 | the receipt button shows exactly for records with a non-zero payment |
| StudentAttendance.TotalAbsent | src/pages/student/StudentAttendance.tsx:14-15 | the Absent card equals the sum of the per-subject absences, and is non-negative when no subject has more attended than held |
| StudentAttendance.BadgeFor | src/pages/student/StudentAttendance.tsx:73-77 | Eligible iff at least 75 %, At Risk iff 65 % to below 75 %, Detained iff below 65 % |
| StudentAttendance.BadgeMonotone | src/pages/student/StudentAttendance.tsx:73-77 | a higher percentage never earns a worse badge |
| StudentAttendance.ShortfallIffNotEligible | src/pages/student/StudentAttendance.tsx:91 | the "need more classes" hint shows exactly on subjects that are not Eligible |
| StudentAttendance.CeilDiv | src/pages/student/StudentAttendance.tsx:94 | `Math.ceil(x / d)` is the least integer r with d * r at least x |
| StudentAttendance.ClassesNeededExact | src/pages/student/StudentAttendance.tsx:94 | the hint is exactly 3 * classes - 4 * attended |
| StudentAttendance.ClassesNeededIsMinimal | src/pages/student/StudentAttendance.tsx:94 | below 75 %, attending the hinted N further classes reaches 75 % and N - 1 does not |
| StudentAttendance.ReportFigures | src/pages/student/StudentAttendance.tsx:5-15 | the page's table gives 173 classes, 143 attended, 30 absent; only Physics shows the hint, At Risk, needing 8 classes |
| ClassManagement.InitialAttendance | src/pages/faculty/ClassManagement.tsx:65-67 | the initial sheet has an entry exactly for every fetched id |
| ClassManagement.InitialAttendanceLastWins | src/pages/faculty/ClassManagement.tsx:65-67 | each id's entry is the stored mark of the last row with that id, or present when it has none |
| ClassManagement.IdsSnoc | src/pages/faculty/ClassManagement.tsx:65-67 | the ids of a list are those of its prefix plus the last row's |
| ClassManagement.Toggled | src/pages/faculty/ClassManagement.tsx:90-95 | the toggled student is present iff they were not present before; every other entry is unchanged |
| ClassManagement.ToggleTwice | src/pages/faculty/ClassManagement.tsx:90-95 | toggling the same student twice restores the sheet |
| ClassManagement.ToggleMovesOne | src/pages/faculty/ClassManagement.tsx:131-135 | a toggle moves exactly one student into or out of the present count |
| ClassManagement.DistinctIdsCount | src/pages/faculty/ClassManagement.tsx:131-135 | a list with distinct ids has as many ids as rows |
| ClassManagement.AbsentCountIsAbsentees | src/pages/faculty/ClassManagement.tsx:131-135 | with one entry per student, the Absent counter is the number marked absent, non-negative, and the two counters add up to the class size |
| ClassManagement.ClassManagementPage.constructor | src/pages/faculty/ClassManagement.tsx:42-45 | the page starts with no students, an empty sheet, an empty message box and nothing sent; the sheet invariant holds |
| ClassManagement.ClassManagementPage.StudentsLoaded | src/pages/faculty/ClassManagement.tsx:61-70 | a successful fetch stores the rows and the initial sheet built from them, with exactly one entry per fetched id |
| ClassManagement.ClassManagementPage.ToggleAttendance | src/pages/faculty/ClassManagement.tsx:90-95 | for a listed student the sheet becomes `Toggled` of the old sheet and the present counter moves by one; an unlisted id has no button and changes nothing; the sheet keeps one entry per listed id |
| ClassManagement.ClassManagementPage.Counters | src/pages/faculty/ClassManagement.tsx:131-135 | with distinct student ids the two counters shown are the numbers marked present and absent, and they add up to the class size |
| ClassManagement.ClassManagementPage.SetMessage | src/pages/faculty/ClassManagement.tsx:243 | the message box holds the typed text |
| ClassManagement.ClassManagementPage.SendMessage | src/pages/faculty/ClassManagement.tsx:112-127 | a blank message changes nothing; any other is sent for the page's section and the box is cleared |
| Strings.TrimEmptyIffBlank | src/pages/faculty/ClassManagement.tsx:114 | `trim()` is empty exactly when every character is JavaScript white space |
| Strings.TrimEndKeepsNonBlank | src/pages/faculty/ClassManagement.tsx:114 | trimming the end never empties a string that starts with a non-space |
| Strings.ToLower | src/pages/admin/AddStudent.tsx:41-45 | lower-casing keeps the length, leaves no upper-case letter, turns each upper-case letter into the same letter in lower case, and keeps every other character |
| Strings.ToLowerIdempotent | src/pages/admin/AddStudent.tsx:41-45 | lower-casing an already lower-cased string changes nothing |
| Strings.ContainsIffOccurs | src/pages/admin/AddStudent.tsx:41-45 | `includes` holds exactly when the search text occurs at some position |
| Strings.ContainsEmpty | src/pages/admin/AddStudent.tsx:41-45 | every string includes the empty string |
| Seqs.FilterMembership | src/pages/admin/AddStudent.tsx:41-45 | a value is in the filtered list iff it is in the list and passes |
| AddStudent.WithField | src/pages/admin/AddStudent.tsx:91-150 | editing an input sets that field and keeps every other field |
| AddStudent.Filtered | src/pages/admin/AddStudent.tsx:41-45 | the listed students are, in order, exactly those whose name, roll number or branch contains the search text, ignoring case. Each match keeps its multiplicity. An empty search lists everybody |
| AddStudent.SearchIgnoresCase | src/pages/admin/AddStudent.tsx:41-45 | two queries that agree once lower-cased, such as "ARJ" and "arj", list the same students; so do a query and its lower-cased form |
| AddStudent.EmptySearchMatchesAll | src/pages/admin/AddStudent.tsx:41-45 | every student matches the empty search |
| AddStudent.EnrolledFoundByName | src/pages/admin/AddStudent.tsx:36-45 | a newly enrolled student is listed when searching for their own name |
| AddStudent.StudentDirectory.constructor | src/pages/admin/AddStudent.tsx:26-31 | list view, no banner, empty search, the four demo students, empty form, no pending timer |
| AddStudent.StudentDirectory.ToggleView | src/pages/admin/AddStudent.tsx:59 | list and form swap; nothing else changes |
| AddStudent.StudentDirectory.Cancel | src/pages/admin/AddStudent.tsx:157 | the form's Cancel button returns to the list; nothing else changes |
| AddStudent.StudentDirectory.SetSearch | src/pages/admin/AddStudent.tsx:170 | in the list view the search box holds the typed text; the box is not on screen in the add view, where nothing changes |
| AddStudent.StudentDirectory.EditField | src/pages/admin/AddStudent.tsx:91-150 | in the add view the form becomes `WithField` of the old form; the inputs are not on screen in the list view, where nothing changes |
| AddStudent.StudentDirectory.HandleSave | src/pages/admin/AddStudent.tsx:33-37 | in the add view, with a name and an e-mail, the new student heads the list, the list grows by one, the banner shows and one more timer is pending; otherwise nothing happens |
| AddStudent.StudentDirectory.SaveTimerFired | src/pages/admin/AddStudent.tsx:38 | a pending timer fires: the banner goes, the list shows, the form is cleared and the list keeps the new student; with no timer pending nothing changes; the banner never shows without a pending timer |
| Strings.SplitOnSpace | src/pages/admin/AddStudent.tsx:195 | splitting on spaces gives at least one piece, no piece holds a space, and joining the pieces with single spaces gives the string back |
| Strings.FirstLettersAreWordStarts | src/pages/admin/AddStudent.tsx:195 | the first letters of the pieces are the characters that start a word |
| Strings.WordStartsAreLetters | src/pages/admin/AddStudent.tsx:195 | every word start is a non-space character of the name |
| Strings.Initials | src/pages/admin/AddStudent.tsx:195 | at most two characters: the first two word starts of the name, each a non-space character of it, led by the name's first character when that is not a space |
| AddFaculty.WithField | src/pages/admin/AddFaculty.tsx:90-149 | editing an input sets that field and keeps every other field |
| AddFaculty.Filtered | src/pages/admin/AddFaculty.tsx:43-47 | the listed members are, in order, exactly those whose name, subject or section contains the search text, ignoring case. Each match keeps its multiplicity. An empty search lists everybody |
| AddFaculty.SearchIgnoresCase | src/pages/admin/AddFaculty.tsx:43-47 | two queries that agree once lower-cased list the same members; so do a query and its lower-cased form |
| AddFaculty.EmptySearchMatchesAll | src/pages/admin/AddFaculty.tsx:43-47 | every member matches the empty search |
| AddFaculty.AddedFoundByName | src/pages/admin/AddFaculty.tsx:37-47 | a newly added member is listed when searching for their own name |
| AddFaculty.FacultyDirectory.constructor | src/pages/admin/AddFaculty.tsx:27-32 | list view, no banner, empty search, the four demo members, empty form, no pending timer |
| AddFaculty.FacultyDirectory.ToggleView | src/pages/admin/AddFaculty.tsx:60 | list and form swap; nothing else changes |
| AddFaculty.FacultyDirectory.Cancel | src/pages/admin/AddFaculty.tsx:159 | the form's Cancel button returns to the list; nothing else changes |
| AddFaculty.FacultyDirectory.SetSearch | src/pages/admin/AddFaculty.tsx:175 | in the list view the search box holds the typed text; the box is not on screen in the add view, where nothing changes |
| AddFaculty.FacultyDirectory.EditField | src/pages/admin/AddFaculty.tsx:90-149 | in the add view the form becomes `WithField` of the old form; the inputs are not on screen in the list view, where nothing changes |
| AddFaculty.FacultyDirectory.HandleSave | src/pages/admin/AddFaculty.tsx:34-39 | in the add view, with a name and an e-mail, the new member heads the list, the list grows by one, the banner shows and one more timer is pending; otherwise nothing happens |
| AddFaculty.FacultyDirectory.SaveTimerFired | src/pages/admin/AddFaculty.tsx:40 | a pending timer fires: the banner goes, the list shows, the form is cleared and the list keeps the new member; with no timer pending nothing changes; the banner never shows without a pending timer |
| StudentFees.PendingFee | src/pages/student/StudentFees.tsx:30-32 | total minus paid equals the sum of the rows' pending amounts |
| StudentFees.PageTotals | src/pages/student/StudentFees.tsx:5-32 | the table gives 67,000 total, 57,000 paid and 10,000 pending, which is what the two unpaid rows owe |
| StudentFees.PayNowIffAmountShown | src/pages/student/StudentFees.tsx:120-134 | "Pay Now" shows exactly on rows whose pending cell shows an amount, and that amount is positive |
| StudentFees.RemoveFirstSpaceAt | src/pages/student/StudentFees.tsx:134 | `replace(" ", "")` removes the first space only, keeping what stands before and after it |
| StudentFees.RemoveFirstSpaceNoSpace | src/pages/student/StudentFees.tsx:134 | a string without a space is left unchanged |
| StudentFees.FeeKeyLength | src/pages/student/StudentFees.tsx:134 | a category with a space loses exactly one character in its key |
| StudentFees.LowerTransport | src/pages/student/StudentFees.tsx:134 | "Transport Fee" lower-cases to "transport fee" |
| StudentFees.SlugTransport | src/pages/student/StudentFees.tsx:134 | removing the space of "transport fee" gives "transportfee" |
| StudentFees.TransportKey | src/pages/student/StudentFees.tsx:134 | the transport row's key is "transportfee" |
| StudentFees.LowerOther | src/pages/student/StudentFees.tsx:134 | "Other Charges" lower-cases to "other charges" |
| StudentFees.SlugOther | src/pages/student/StudentFees.tsx:134 | removing the space of "other charges" gives "othercharges" |
| StudentFees.OtherKey | src/pages/student/StudentFees.tsx:134 | the other-charges row's key is "othercharges" |
| StudentFees.PayableKeysAreRowKeys | src/pages/student/StudentFees.tsx:133-134 | a row offers "Pay Now" exactly when its key is "transportfee" or "othercharges" |
| StudentFees.TransportPaymentShowsWrongAmount | src/pages/student/StudentFees.tsx:58 | no row yields the key "transport", so paying the transport fee shows 2,000 although 8,000 is pending |
| StudentFees.SuccessAmountIsRowPending | src/pages/student/StudentFees.tsx:58 | with the matching key, the success screen shows exactly the pending amount of the row paid |
| StudentFees.FeesPage.constructor | src/pages/student/StudentFees.tsx:23-28 | dashboard, UPI chosen, empty UPI id, not processing, no success, no fee chosen |
| StudentFees.FeesPage.PayNow | src/pages/student/StudentFees.tsx:133-134 | on the dashboard, a row with something pending records its key and opens the modal; otherwise nothing changes |
| StudentFees.FeesPage.CloseModal | src/pages/student/StudentFees.tsx:155 | the modal closes; a payment under way still completes |
| StudentFees.FeesPage.ChoosePaymentMethod | src/pages/student/StudentFees.tsx:170 | in the open modal, the chosen method becomes current |
| StudentFees.FeesPage.SetUpiId | src/pages/student/StudentFees.tsx:186 | in the open modal with UPI chosen, the UPI id holds the typed text |
| StudentFees.FeesPage.HandlePay | src/pages/student/StudentFees.tsx:34-36 | submitting the modal starts processing, without checking any payment detail |
| StudentFees.FeesPage.PaymentTimerFired | src/pages/student/StudentFees.tsx:37 | while a payment is processing the timer ends it in success for the chosen fee; without a payment under way nothing fires |
| StudentFees.FeesPage.ShownAmount | src/pages/student/StudentFees.tsx:58 | corrected: once a fee is chosen, the success amount is the pending amount of every row with that key (line 58 as written shows 2,000 for every key the rows produce) |
| StudentFees.FeesPage.BackFromSuccess | src/pages/student/StudentFees.tsx:69 | from the success screen back to the dashboard |

## Left out

- Rendering, styles, icons, animations and the dashboard layout are not modelled. The
  progress bars and the urgent-clock colour are left out too.
- The quiz's copy, paste and context-menu suppression is left out (`StudentQuiz.tsx` lines
  65-77). It only cancels browser events and changes no state.
- Hook wiring is not modelled as such:
  - which effect subscribes when, and `clearInterval`;
  - handlers are methods invoked one at a time;
  - timers are explicit `Tick`, `SaveTimerFired` and `PaymentTimerFired` events;
  - of the closures, only the answer sheet a subscribed quiz handler holds is modelled.
- The page's questions are a parameter constrained by `ValidQuestionSet`; their texts are
  not copied. The user object from the auth context that the quiz reads is not used.
- Quiz.QuizSession.Finalize: it has no `Valid()` contract of its own. Its callers
  re-establish the invariant.
- Quiz.QuizSession.TickAsWritten and Quiz.QuizSession.OnVisibilityChangeAsWritten: after
  their submission they do not promise `Valid()`. The score shown then differs from the
  recorded answers, which is the finding they exhibit.
- Database access is not modelled:
  - the students fetch;
  - the class-message insert and re-fetch;
  - `saveAttendance`, which writes every sheet entry and raises an alert;
  - the payments fetch of the fee-management page.
  A fetch result arrives as a `StudentsLoaded` argument, and sent messages are appended to
  `outbox`.
- The fee summary is a function of the records. Storing it in component state is not
  modelled.
- Clocks and ids: `Date.now()` ids are method parameters, and the success screen's
  transaction number is not modelled.
- Floating point is not modelled: the overall attendance percentage
  (`Math.round` of a float ratio) and the quiz's countdown percentage. Stored per-subject
  percentages are integers taken as given.
- FeeManagement.CalculateSummary: `x || 0` is modelled as the identity. That is exact for
  numbers; missing or null amounts are not modelled.
- Auth.User: the role-specific profile fields (subject, section, year, branch, roll number)
  are not modelled.
- AddStudent.NewStudent and AddFaculty.NewFaculty: a new record also carries the form's
  password in the source. The listed records do not model it.
- The show-password toggles of both forms are not modelled.
- The "Download Receipt" and "PDF" buttons have no handler, so only their visibility is
  modelled.
- StudentFees: the card, expiry, CVV and bank inputs are uncontrolled and hold no state.
- Strings.ToLower: only ASCII letters are lower-cased. Other Unicode case mappings are not
  modelled.
- Strings are sequences of characters, not UTF-16 code units, so `length` and `maxLength`
  count characters.
- ClassManagement.StoredOrPresent: a stored attendance outside "present" and "absent" cannot
  occur under the row type, so it is not modelled.

## Findings

| source | as written | input that shows it | evidently intended | confidence | as-written member | corrected member |
|---|---|---|---|---|---|---|
| src/pages/student/StudentQuiz.tsx:80-99 | the timer effect depends only on `state`, so when the time runs out it calls the `handleSubmit` of the render that started the attempt, which scores the empty answer sheet | start an attempt, answer all 20 questions correctly, let the 600 s run out: the score shown is 0 | a timeout scores the answers given so far | not executed | Quiz.TimeoutAsWrittenAndIntended | Quiz.QuizSession.Tick |
| src/pages/student/StudentQuiz.tsx:48-62 | the visibility handler is re-subscribed when `violations` changes but its `handleSubmit` scores the answers of that render, so the third tab switch scores the answers as of the second | switch tabs twice before answering, answer every question correctly, switch a third time: the violation screen shows 0 | the forced submission scores the answers given so far | not executed | Quiz.ViolationAsWrittenAndIntended | Quiz.QuizSession.OnVisibilityChange |
| src/pages/student/StudentFees.tsx:58 | the success screen shows 8,000 only for the key "transport", but "Pay Now" on "Transport Fee" records `"transport fee".replace(" ", "")`, i.e. "transportfee" | press "Pay Now" on Transport Fee (8,000 pending) and pay: the success screen shows 2,000 | the success screen shows the pending amount of the fee paid | not executed | StudentFees.TransportPaymentShowsWrongAmount | StudentFees.FeesPage.ShownAmount |
