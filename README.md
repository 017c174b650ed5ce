# MiniLMS UI — a verified model of the page logic

MiniLMS UI is a React front end for a small learning-management system, with
administrators, trainers and learners. This project models the logic of those
pages that can be stated precisely. It leaves out the HTTP calls and rendering
around it. What is modelled:

- **Learner course details** (`LearnerCourseDetails`): the learner id read
  from the bearer token (RFC 7519; the payload segment is base64url, section 5
  of RFC 4648), the feedback validators and `getFileUrl`. It also covers the
  course-progress aggregate, the merge of modules with progress records, and a
  `CourseView` class holding the view state. The load, pause, end and feedback
  handlers update that state.
- **Form validators and small form state machines**:
  - `AdminLogin`: the two-step email, password and one-time-code login;
  - `LoginPage`: the trainer/learner login and its role routing;
  - `ManageModules`: the module form;
  - `FeedbackForm` and `CourseFeedback`: the two feedback forms.
- **Dashboard derivations**:
  - `LearnerHome`: trainer enrichment, counts and the three most recent
    enrollments;
  - `ManageCourses`: takedown requests, the per-course module count map and
    approving a takedown.
- **The localStorage stand-in** of the test set-up (`LocalStorage`).

Shared modules hold JavaScript behaviour that several pages use:

- `Seqs`: `find`, `findIndex` and `filter`.
- `Text`: `trim`, white space as JavaScript's `\s` and `trim` define it, and
  `length` as JavaScript counts it, in UTF-16 code units (a character beyond
  U+FFFF counts twice). Every length rule of the validators uses that count.
- `Jwt`: JSON claim values, truthiness and `||`, `parseInt(_, 10)`, and the
  token's payload segment.
- `Records`: the server records.
- `Wrappers`: `Option`.

Every handler that changes component state is a method of a class whose
fields are that state. Each method receives the response data as arguments
(`None`, or `ok == false`, for a failed request). It returns whether it sends
its request and, where the page has one, the route it navigates to, the
progress update it schedules or the record it hands on. The login and logout
handlers write to, or clear, a `LocalStorage.LocalStorageMock` passed to
them. Pure derivations are functions, with lemmas about them.

The page at `src/Pages/CourseFeedback.jsx` renders no form, so nothing in the
page calls its submit handler. `CourseFeedback.Page.Submit` models that
handler as written.

## Model

| member | source | states |
|---|---|---|
| LearnerCourseDetails.LearnerIdFromToken | src/Pages/LearnerCourseDetails.jsx:9-24 | an empty token or a token without a payload segment gives no id; a returned id is never 0 (`\|\| null`) |
| LearnerCourseDetails.IdFromClaims | src/Pages/LearnerCourseDetails.jsx:21 | the parsed claim is kept only when it is a number other than 0 |
| LearnerCourseDetails.ClaimPriority | src/Pages/LearnerCourseDetails.jsx:21 | the id comes from `UserId`, else `userId`, else `sub` (the first truthy one); with none truthy there is no id |
| LearnerCourseDetails.FalsyClaim | src/Pages/LearnerCourseDetails.jsx:21 | a falsy claim (absent, null, false, 0, "") never yields a non-zero id |
| LearnerCourseDetails.DecimalClaim | src/Pages/LearnerCourseDetails.jsx:21 | a claim holding the decimal text of n is truthy and parses to n |
| LearnerCourseDetails.IdentityOfCompactToken | src/Pages/LearnerCourseDetails.jsx:12-21 | for `header.payload.signature` the id is the one in the decoded second segment, and none when decoding fails |
| Jwt.PayloadSegment | src/Pages/LearnerCourseDetails.jsx:12 | `split(".")[1]` exists exactly when the token has a '.', and contains no '.' |
| Jwt.PayloadOfCompact | src/Pages/LearnerCourseDetails.jsx:12 | the segment of a three-part compact token is its payload part |
| Jwt.Base64UrlToBase64 | src/Pages/LearnerCourseDetails.jsx:13 | same length, '-' becomes '+', '_' becomes '/', no '-' or '_' remains, every other character kept |
| Jwt.Or | src/Pages/LearnerCourseDetails.jsx:21 | `a \|\| b` is truthy exactly when one of them is |
| Jwt.LeadingDigits | src/Pages/LearnerCourseDetails.jsx:21 | the longest digit prefix that `parseInt` reads |
| Jwt.ParseDecimal | src/Pages/LearnerCourseDetails.jsx:21 | `parseInt` of the decimal text of any integer n is n |
| Jwt.NumeralValue | src/Pages/LearnerCourseDetails.jsx:21 | the digits of a natural number read back as that number |
| LearnerCourseDetails.ValidateMessage | src/Pages/LearnerCourseDetails.jsx:64-68 | accepted exactly when the trimmed comment has at least 10 UTF-16 code units; a blank one gets "Comments are required.", a non-blank shorter one "Comments must be at least 10 characters." |
| LearnerCourseDetails.ValidateRating | src/Pages/LearnerCourseDetails.jsx:70-73 | accepted exactly when the rating is 1..5 |
| LearnerCourseDetails.ValidateFeedback | src/Pages/LearnerCourseDetails.jsx:76-81 | both errors are empty exactly when the trimmed comment has at least 10 UTF-16 code units and the rating is in 1..5 |
| LearnerCourseDetails.GetFileUrl | src/Pages/LearnerCourseDetails.jsx:85-89 | no URL exactly for a missing or empty path; an http(s) path (any case) is kept; anything else goes under the uploads folder; the result is always http(s) |
| LearnerCourseDetails.GetFileUrlIdempotent | src/Pages/LearnerCourseDetails.jsx:85-89 | applying `getFileUrl` to its own result changes nothing |
| LearnerCourseDetails.CourseProgress | src/Pages/LearnerCourseDetails.jsx:92-96 | 0 for no modules, otherwise floor(sum / count) with a missing percentage as 0 |
| LearnerCourseDetails.SumProgressBounds | src/Pages/LearnerCourseDetails.jsx:94 | with every percentage in 0..100 the sum is in 0..100 times the count |
| LearnerCourseDetails.CourseProgressInRange | src/Pages/LearnerCourseDetails.jsx:92-96 | with every percentage in 0..100 the aggregate is in 0..100 |
| LearnerCourseDetails.SumProgressRemove | src/Pages/LearnerCourseDetails.jsx:94 | removing one module removes exactly its progress from the sum |
| LearnerCourseDetails.CourseProgressOrderIndependent | src/Pages/LearnerCourseDetails.jsx:92-96 | lists that are permutations of each other have the same sum and aggregate |
| LearnerCourseDetails.MergeOne | src/Pages/LearnerCourseDetails.jsx:149-154 | a module takes percentage and completion from the first progress record with its id (missing as 0 / false), or 0 / false without one; all other fields kept |
| LearnerCourseDetails.Merge | src/Pages/LearnerCourseDetails.jsx:148-155 | same length and order as the fetched modules, each entry merged as above |
| LearnerCourseDetails.MergeInRange | src/Pages/LearnerCourseDetails.jsx:148-155 | merged percentages are in 0..100 when the records' are |
| LearnerCourseDetails.MergeExample | src/Pages/LearnerCourseDetails.jsx:148-163 | modules 1 and 2 with one record of 40 for module 1 give 40, 0 and a course progress of 20 |
| LearnerCourseDetails.WithProgress | src/Pages/LearnerCourseDetails.jsx:208-210 | only the entries with the selected id change, and only their percentage |
| LearnerCourseDetails.WithCompleted | src/Pages/LearnerCourseDetails.jsx:232-234 | only the entries with the selected id change, to 100 and completed |
| LearnerCourseDetails.PauseAsWrittenCanLowerProgress | src/Pages/LearnerCourseDetails.jsx:207-213 | with the stale snapshot, pausing at 80 and then at 50 leaves 50 |
| LearnerCourseDetails.PauseAsWrittenBreaksCompletion | src/Pages/LearnerCourseDetails.jsx:207-213 | a pause at 30 after the end leaves a module completed at 30 percent |
| LearnerCourseDetails.RaiseProgress | src/Pages/LearnerCourseDetails.jsx:207-210 | corrected pause: no entry's progress decreases, and nothing but a percentage changes |
| LearnerCourseDetails.RaiseProgressKeepsCompletion | src/Pages/LearnerCourseDetails.jsx:207-213 | corrected pause keeps "completed means 100 percent" for any percentage up to 100 |
| LearnerCourseDetails.WithCompletedKeepsCompletion | src/Pages/LearnerCourseDetails.jsx:232-234 | completing a module keeps "completed means 100 percent" |
| LearnerCourseDetails.PartialPayload | src/Pages/LearnerCourseDetails.jsx:184-190 | the update is marked completed exactly when the percentage is at least 99 |
| LearnerCourseDetails.CourseView.constructor | src/Pages/LearnerCourseDetails.jsx:45-61 | the initial view: no modules, no selection, progress 0, no feedback |
| LearnerCourseDetails.CourseView.LoadData | src/Pages/LearnerCourseDetails.jsx:114-169 | not enrolled: the view resets and no further request is made; a failed fetch changes nothing; otherwise modules are the merge, the first is selected, `hasFeedback` holds exactly when a feedback is the learner's, and the progress is the aggregate |
| LearnerCourseDetails.CourseView.FetchCourseProgress | src/Pages/LearnerCourseDetails.jsx:99-111 | the server's progress when it sends one, else (also on failure) the aggregate of the module list the pending update's closure captured, i.e. the list before the pause |
| LearnerCourseDetails.StaleFallbackExample | src/Pages/LearnerCourseDetails.jsx:106-109 | one module at 0 paused at 80 shows 80, while the captured pre-pause list the fallback averages gives 0 |
| LearnerCourseDetails.CourseView.SelectModule | src/Pages/LearnerCourseDetails.jsx:375 | the selection becomes a copy of the clicked module |
| LearnerCourseDetails.CourseView.SelectFeedback | src/Pages/LearnerCourseDetails.jsx:387 | the selection becomes the feedback panel |
| LearnerCourseDetails.CourseView.HandleVideoPause | src/Pages/LearnerCourseDetails.jsx:202-215 | as written: only a percentage above the snapshot's changes the list (selected id only), recomputes the progress and schedules the payload together with the list from before the pause; the snapshot is untouched |
| LearnerCourseDetails.CourseView.HandleVideoPauseMonotone | src/Pages/LearnerCourseDetails.jsx:202-215 | corrected pause: no module's progress decreases; an update, holding the list from before the pause, is scheduled exactly when the list changed |
| LearnerCourseDetails.CourseView.HandleVideoEnd | src/Pages/LearnerCourseDetails.jsx:218-240 | the completion request is sent for the selected module; the list and progress change only on success |
| LearnerCourseDetails.CourseView.ChangeMessage | src/Pages/LearnerCourseDetails.jsx:461-466 | the comment is re-validated only once touched |
| LearnerCourseDetails.CourseView.BlurMessage | src/Pages/LearnerCourseDetails.jsx:467-470 | leaving the comment box marks it touched and validates it |
| LearnerCourseDetails.CourseView.ClickStar | src/Pages/LearnerCourseDetails.jsx:487-492 | the rating is re-validated only once touched |
| LearnerCourseDetails.CourseView.SubmitFeedback | src/Pages/LearnerCourseDetails.jsx:243-263 | a request is sent exactly when the form is valid; success appends the feedback and sets `hasFeedback` and the thanks text; otherwise nothing of that changes |
| ManageModules.ValidateForm | src/Pages/ManageModules.jsx:68-94 | title: blank is "required", over 100 UTF-16 code units untrimmed is "too long"; content: blank is "required", under 10 code units untrimmed is "too short"; no file never errs, the type check comes before the 50 MiB size check; valid exactly when the map is empty |
| ManageModules.TitleLengthBoundary | src/Pages/ManageModules.jsx:70-72 | a non-blank title of 100 UTF-16 code units passes; appending any character makes it too long |
| ManageModules.ModuleForm.constructor | src/Pages/ManageModules.jsx:22-29 | empty form, no errors, not editing |
| ManageModules.ModuleForm.ChangeTitle | src/Pages/ManageModules.jsx:58-65 | only the title and its error (cleared) change |
| ManageModules.ModuleForm.ChangeContent | src/Pages/ManageModules.jsx:58-65 | only the content and its error (cleared) change |
| ManageModules.ModuleForm.ChangeFile | src/Pages/ManageModules.jsx:58-65 | only the file (first chosen) and its error (cleared) change |
| ManageModules.ModuleForm.HandleEdit | src/Pages/ManageModules.jsx:144-152 | edit target is the module id, name and `description \|\| ""` fill the form, no file, no errors |
| ManageModules.ModuleForm.HandleSubmit | src/Pages/ManageModules.jsx:97-141 | an invalid form sends nothing and shows its errors; editing sends an update without `CourseId`, creating a create with it; success resets the form and the edit target; failure leaves exactly the submit error |
| ManageModules.ModuleForm.Cancel | src/Pages/ManageModules.jsx:278-282 | back to an empty create form without errors |
| AdminLogin.MatchesEmailIff | src/Pages/AdminLogin.jsx:29 | the executable check accepts exactly local@domain.tld with three non-empty parts free of white space and '@' |
| AdminLogin.LoginErrors | src/Pages/AdminLogin.jsx:33-40 | a key exactly for each step-1 field whose rule fails (the password's length counted in UTF-16 code units), carrying that rule's message; never an OTP key |
| AdminLogin.LoginErrorsMeaning | src/Pages/AdminLogin.jsx:29-38 | email: blank is "required", otherwise the pattern decides; password: shorter than 6 UTF-16 code units fails, empty with "required" |
| AdminLogin.ExampleAddressMatches | src/Pages/__tests__/AdminLogin.test.jsx:57-59 | admin@example.com matches the email pattern |
| AdminLogin.OtpErrors | src/Pages/AdminLogin.jsx:43-48 | an error exactly when the code is not six digits, "required" when blank |
| AdminLogin.KeepDigits | src/Pages/AdminLogin.jsx:204 | only digits remain |
| AdminLogin.KeepDigitsContents | src/Pages/AdminLogin.jsx:204 | every digit kept as often as typed, nothing else, in the typed order |
| AdminLogin.KeepDigitsIdempotent | src/Pages/AdminLogin.jsx:204 | filtering twice is filtering once |
| AdminLogin.FilteredOtpValid | src/Pages/AdminLogin.jsx:204 | a filtered code is valid exactly when six digits remain |
| AdminLogin.SendOtpButton | src/Pages/AdminLogin.jsx:186 | "Send OTP" is disabled for empty fields and enabled for admin@example.com / 123456 |
| AdminLogin.MessageOr | src/Pages/AdminLogin.jsx:89 | the server's message when non-empty, else the fallback |
| AdminLogin.LoginForm.constructor | src/Pages/AdminLogin.jsx:10-26 | step 1, empty fields, nothing touched, no messages |
| AdminLogin.LoginForm.ChangeEmail | src/Pages/AdminLogin.jsx:158 | the email becomes the typed value |
| AdminLogin.LoginForm.ChangePassword | src/Pages/AdminLogin.jsx:174 | the password becomes the typed value |
| AdminLogin.LoginForm.SetStep | src/Pages/AdminLogin.jsx:55-62 | entering step 1 from another step clears the code, its touched flag, the message and the submit error; otherwise none of them change |
| AdminLogin.LoginForm.ChangeOtp | src/Pages/AdminLogin.jsx:204 | the code becomes the digits of what was typed |
| AdminLogin.LoginForm.Blur | src/Pages/AdminLogin.jsx:65-67 | only the named field becomes touched |
| AdminLogin.LoginForm.LoginSubmit | src/Pages/AdminLogin.jsx:70-97 | invalid fields send nothing; an ok reply moves to step 2 with the server's message or "OTP sent to your email"; otherwise the server's message or "Login failed", or the network error, on step 1 |
| AdminLogin.LoginForm.OtpSubmit | src/Pages/AdminLogin.jsx:100-129 | an invalid code sends nothing; only an ok reply writes token, role "Admin" and email to the storage and yields that session; otherwise the server's message or "OTP verification failed.", or the network error |
| AdminLogin.LoginForm.Logout | src/Pages/AdminLogin.jsx:132-141 | the storage is cleared; step 1 with every field and message empty |
| LoginPage.ValidateEmailMeaning | src/Pages/LoginPage.jsx:48-53 | blank is "required"; otherwise the pattern is matched against the untrimmed value |
| LoginPage.ValidatePassword | src/Pages/LoginPage.jsx:55-59 | accepted exactly from 6 UTF-16 code units; empty is "required", a shorter non-empty one "too short" |
| LoginPage.SurrogatePairsCount | src/Pages/LoginPage.jsx:57 | three characters beyond U+FFFF are six code units, so such a password is accepted |
| LoginPage.AgreesWithAdminLogin | src/Pages/LoginPage.jsx:48-59 | both login pages give the same verdicts and messages for email and password |
| LoginPage.HomeFor | src/Pages/LoginPage.jsx:119 | "Trainer" goes to the trainer home, every other role to the learner home |
| LoginPage.AutoRedirect | src/Pages/LoginPage.jsx:24-30 | redirects exactly when a token is stored and the stored role is Trainer or Learner |
| LoginPage.RevisitAfterLogin | src/Pages/LoginPage.jsx:24-30 | after storing a token and role, the redirect goes where the login went |
| LoginPage.NoTokenNoRedirect | src/Pages/LoginPage.jsx:24-30 | without a stored token there is no redirect, whatever the role |
| LoginPage.LoginForm.constructor | src/Pages/LoginPage.jsx:11-21 | empty fields, role "Trainer", nothing touched, no errors, not loading |
| LoginPage.LoginForm.ChooseRole | src/Pages/LoginPage.jsx:182-189 | the role becomes the clicked one |
| LoginPage.LoginForm.ChangeEmail | src/Pages/LoginPage.jsx:73-79 | re-validated only once touched |
| LoginPage.LoginForm.ChangePassword | src/Pages/LoginPage.jsx:81-87 | re-validated only once touched |
| LoginPage.LoginForm.BlurEmail | src/Pages/LoginPage.jsx:62-70 | touched and validated |
| LoginPage.LoginForm.BlurPassword | src/Pages/LoginPage.jsx:62-70 | touched and validated |
| LoginPage.LoginForm.Submit | src/Pages/LoginPage.jsx:90-125 | both fields touched and validated; a request only when both errors are empty; success stores the token and the role and routes by role, and only then does the storage change; failure shows the server's message or "Login failed. Check credentials." |
| FeedbackForm.Validate | src/Components/FeedbackForm.jsx:20-34 | message blank is "required", under 10 UTF-16 code units untrimmed is "too short"; rating outside 1..5 errs; valid exactly when no key is set |
| FeedbackForm.MessageRulesCompared | src/Components/FeedbackForm.jsx:22-26 | whatever the course page's trimmed check accepts this form accepts; "a" plus nine spaces passes here and fails there |
| FeedbackForm.Editor.constructor | src/Components/FeedbackForm.jsx:7-18 | empty message, rating 0, nothing touched, both error keys empty, no status |
| FeedbackForm.Editor.ChangeMessage | src/Components/FeedbackForm.jsx:94 | the message becomes the typed value |
| FeedbackForm.Editor.Blur | src/Components/FeedbackForm.jsx:36-39 | the field becomes touched and the errors are recomputed |
| FeedbackForm.Editor.ClickStar | src/Components/FeedbackForm.jsx:112-120 | the rating is set; once touched only the rating error is removed |
| FeedbackForm.Editor.Submit | src/Components/FeedbackForm.jsx:41-74 | an invalid form sends nothing; success hands the reply on and resets message, rating, touched flags and errors with the success text; failure sets "Failed to submit feedback." and keeps message and rating |
| CourseFeedback.Repeat | src/Pages/CourseFeedback.jsx:100-101 | `repeat(n)` gives n copies, and fails for negative n |
| CourseFeedback.StarsShape | src/Pages/CourseFeedback.jsx:100-101 | for ratings 0..5, five stars with the first r filled; any other rating fails to render |
| CourseFeedback.Page.constructor | src/Pages/CourseFeedback.jsx:14-21 | no feedbacks, no error, empty form, rating 0, no success text |
| CourseFeedback.Page.Load | src/Pages/CourseFeedback.jsx:24-38 | with an id, the list is the reply or "Failed to load feedbacks." is set |
| CourseFeedback.Page.Submit | src/Pages/CourseFeedback.jsx:41-77 | rating 0 sets "Please select a rating." and sends nothing; success appends the reply after the kept list and resets message and rating; failure sets "Failed to submit feedback." |
| LearnerHome.LearnerIdClaim | src/Pages/LearnerHome.jsx:31 | `userId` when truthy, else `sub` |
| LearnerHome.Enrich | src/Pages/LearnerHome.jsx:53-59 | same length and order; each entry only gains its trainer |
| LearnerHome.EnrichTrainer | src/Pages/LearnerHome.jsx:54-57 | the trainer of the first course with the same id, else "N/A" |
| LearnerHome.ComputeStats | src/Pages/LearnerHome.jsx:62-69 | completed is the count of "Completed", total the length, in progress the rest, both non-negative |
| LearnerHome.EnrichKeepsStats | src/Pages/LearnerHome.jsx:53-69 | enrichment does not change any count |
| LearnerHome.SortByRecencyCorrect | src/Pages/LearnerHome.jsx:72-74 | the sorted copy is a permutation, most recent first |
| LearnerHome.RecentCorrect | src/Pages/LearnerHome.jsx:72-75 | min(3, n) entries from the list, most recent first, none left out more recent than one shown |
| LearnerHome.Load | src/Pages/LearnerHome.jsx:21-94 | no token goes to login; any failure goes to login and drops the token; otherwise the dashboard from the claim, counts with the notification count, and the recent list |
| ManageCourses.Takedowns | src/Pages/ManageCourses.jsx:68-70 | exactly the "TakedownRequested" notifications, each as often as it occurs |
| ManageCourses.TakedownsInOrder | src/Pages/ManageCourses.jsx:68-70 | the original order is kept |
| ManageCourses.CountMapKeys | src/Pages/ManageCourses.jsx:42-51 | one key per course id |
| ManageCourses.CountMapEntry | src/Pages/ManageCourses.jsx:49 | a course's entry is its module count unless a later course has the same id |
| ManageCourses.BuildCountMap | src/Pages/ManageCourses.jsx:42-52 | the loop gives the count map when every request succeeds and nothing otherwise |
| ManageCourses.DisplayedCount | src/Pages/ManageCourses.jsx:162 | the entry, or 0 when missing |
| ManageCourses.ApproveTarget | src/Pages/ManageCourses.jsx:159-191 | a takedown exists for the course exactly when the target is found; it is the first one |
| ManageCourses.Overview.constructor | src/Pages/ManageCourses.jsx:17-20 | no courses, no takedowns, an empty count map, no message |
| ManageCourses.Overview.Totals | src/Pages/ManageCourses.jsx:80-81 | the totals are the two list lengths |
| ManageCourses.Overview.LoadData | src/Pages/ManageCourses.jsx:24-78 | no token or a failed course/count request goes to the admin login; otherwise courses, count map and takedowns are set, or "Failed to load takedown requests." |
| ManageCourses.Overview.HandleApprove | src/Pages/ManageCourses.jsx:84-108 | success removes the course, its takedown and its count key and nothing else; failure sets "Approval failed. Try again." only |
| LocalStorage.Lookup | src/setupTests.js:18-20 | a value exactly for a present, non-empty entry |
| LocalStorage.LocalStorageMock.constructor | src/setupTests.js:12-14 | the store starts empty |
| LocalStorage.LocalStorageMock.GetItem | src/setupTests.js:18-20 | reads `store[key] \|\| null` |
| LocalStorage.LocalStorageMock.SetItem | src/setupTests.js:21-23 | only key k changes, to `String(v)` |
| LocalStorage.LocalStorageMock.RemoveItem | src/setupTests.js:24-26 | only key k goes |
| LocalStorage.LocalStorageMock.Clear | src/setupTests.js:15-17 | the store becomes empty |
| LocalStorage.ReadAfterSet | src/setupTests.js:18-23 | the written value reads back, an empty string as null; other keys unchanged |
| LocalStorage.LastWriteWins | src/setupTests.js:21-23 | the last write to a key wins |
| LocalStorage.ReadAfterRemove | src/setupTests.js:24-26 | the removed key reads null, others unchanged, removing an absent key is a no-op |
| LocalStorage.ReadAfterClear | src/setupTests.js:15-17 | after clearing every key reads null |
| Seqs.FilterAppend | src/Pages/ManageCourses.jsx:68-70 | filtering keeps the relative order |
| Seqs.FilterCount | src/Pages/ManageCourses.jsx:68-70 | filtering keeps each element as often as it occurs exactly when it satisfies the predicate |
| Text.TrimEmpty | src/Pages/LearnerCourseDetails.jsx:65 | `trim` gives "" exactly for all-white-space strings |
| Text.TrimIdempotent | src/Pages/LearnerCourseDetails.jsx:66 | trimming twice is trimming once |
| Text.TrimUtf16Length | src/Pages/LearnerCourseDetails.jsx:66 | trimming never adds UTF-16 code units, so a comment the trimmed rule accepts is also long enough untrimmed |

## Left out

- HTTP requests, navigation, `alert`, `console` output, timers and loading
  flags: each method takes the responses as arguments and returns what it
  would send or where it would go.
- The debounce helper and when `updatePartial` fires (src/Pages/LearnerCourseDetails.jsx:28-34, 180-199):
  these are timer behaviour. Only the payload rule and the module list its
  memoised closure captures are modelled.
- The floating-point percentage `currentTime / duration`: the pause takes an integer percentage.
- `atob`, `decodeURIComponent`, `JSON.parse` and `jwtDecode`: decoding is a
  parameter that returns the claims, or nothing when it throws. Claims that
  are arrays or objects, numbers of 1e21 and more, fractions and NaN are not
  represented (JSON numbers are integers).
- `Promise.all` concurrency: the three detail requests, and the per-course
  count requests, are modelled as one all-or-nothing step in list order.
- ManageCourses.CountMapOf: with duplicate course ids the JavaScript map keeps
  the write that completes last, not the one last in the list. The model
  keeps the one last in the list.
- Date parsing in the learner dashboard: enrollment dates are integer timestamps.
- LearnerHome.SortByRecencyCorrect: the order among equal timestamps, which
  is the input's order for a stable sort, is not stated. The comparator's
  behaviour on invalid dates (NaN) is also not modelled.
- The 401 interceptor of the login page (global I/O), the admin home page
  (its only derivation is the takedown filter), the learner dashboard page,
  and rendering-only defaults.
- The profile fields (`username`, `email`) that the learner dashboard reads from the token.
- The course record shown on the learner course page (`setCourse`), and its "Course not found." rendering.
- The admin login's `maxLength={6}` on the code input: it is a browser
  constraint, and the model takes whatever the filter leaves.
- LoginPage.LoginForm.Submit: the Authorization header default set after login is not modelled.
- LocalStorage.LocalStorageMock.GetItem: keys such as "toString" that are
  inherited by plain JavaScript objects are not modelled, so they read as
  absent.
- Request bodies of LoginPage.LoginForm.Submit, AdminLogin.LoginForm.LoginSubmit,
  AdminLogin.LoginForm.OtpSubmit, LearnerCourseDetails.CourseView.SubmitFeedback
  and FeedbackForm.Editor.Submit: these return whether the request is sent,
  not its body, which is the form's fields as they are at the call.
- Strings with unpaired surrogates: Dafny characters are Unicode scalar
  values, so a JavaScript string holding a lone surrogate code unit has no
  counterpart in the model.
- The module list, its reload, the course name and the delete handler of the
  module management page: these are fetch, confirm and render.
- The test set-up's polyfill imports.

## Findings

| source | as written | input that shows it | evidently intended | confidence | as-written member | corrected member |
|---|---|---|---|---|---|---|
| src/Pages/LearnerCourseDetails.jsx:207-213 | the pause compares the new percentage with the `selectedModule` snapshot, which no pause or end refreshes | pause at 80, then at 50 on the same selection: the list shows 50; or end the video, then pause at 30: the module is completed at 30 percent | a module's progress never goes down, so each entry is compared with its own progress in the list | not executed | LearnerCourseDetails.PauseAsWrittenCanLowerProgress | LearnerCourseDetails.RaiseProgressKeepsCompletion |
