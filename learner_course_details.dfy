/**
 * The learner's course-detail page: identity from the bearer token, the
 * feedback validators, module file URLs, the course-progress aggregate, the
 * merge of modules with per-module progress, and the view state that the
 * load, playback and feedback handlers update.
 */
module LearnerCourseDetails {
  import opened Wrappers
  import opened Seqs
  import opened Text
  import opened Jwt
  import opened Records

  // ---------------------------------------------------------------- identity

  /**
   * `getLearnerIdFromToken`: `decode` stands for `atob`, `decodeURIComponent`
   * and `JSON.parse` applied to the payload segment; `None` from it is a
   * thrown exception. The claim is `UserId || userId || sub`, parsed with
   * `parseInt(_, 10)`, and `|| null` turns 0 and NaN into `null`.
   */
  function LearnerIdFromToken(token: string, decode: string -> Option<Claims>): (r: Option<int>)
    ensures token == [] ==> r.None?
    ensures '.' !in token ==> r.None?
    ensures r.Some? ==> r.value != 0
  {
    if token == [] then None
    else
      match PayloadSegment(token)
      case None => None
      case Some(segment) =>
        match decode(Base64UrlToBase64(segment))
        case None => None
        case Some(claims) => IdFromClaims(claims)
  }

  /** `parseInt(payload.UserId || payload.userId || payload.sub, 10) || null`. */
  function IdFromClaims(claims: Claims): (r: Option<int>)
    ensures r.Some? ==> r.value != 0
  {
    var id := ParseIntValue(Or(claims.UserId, Or(claims.userId, claims.sub)));
    if id.Some? && id.value != 0 then id else None
  }

  /** The id that a claim holding the decimal form of `n` yields. */
  lemma DecimalClaim(v: Option<JsonValue>, n: int)
    requires n != 0 && v == Some(JStr(Decimal(n)))
    ensures Truthy(v) && ParseIntValue(v) == Some(n)
  {
    ParseDecimal(n);
  }

  /**
   * The identity is the id written in the first truthy claim of `UserId`,
   * `userId`, `sub`; with no truthy claim there is none.
   */
  lemma ClaimPriority(claims: Claims, n: int)
    requires n != 0
    ensures claims.UserId == Some(JStr(Decimal(n))) ==> IdFromClaims(claims) == Some(n)
    ensures !Truthy(claims.UserId) && claims.userId == Some(JStr(Decimal(n))) ==>
              IdFromClaims(claims) == Some(n)
    ensures !Truthy(claims.UserId) && !Truthy(claims.userId) && claims.sub == Some(JStr(Decimal(n))) ==>
              IdFromClaims(claims) == Some(n)
    ensures !Truthy(claims.UserId) && !Truthy(claims.userId) && !Truthy(claims.sub) ==>
              IdFromClaims(claims).None?
  {
    var chosen := Or(claims.UserId, Or(claims.userId, claims.sub));
    if claims.UserId == Some(JStr(Decimal(n))) {
      DecimalClaim(claims.UserId, n);
      assert chosen == claims.UserId;
    } else if !Truthy(claims.UserId) && claims.userId == Some(JStr(Decimal(n))) {
      DecimalClaim(claims.userId, n);
      assert chosen == claims.userId;
    } else if !Truthy(claims.UserId) && !Truthy(claims.userId) && claims.sub == Some(JStr(Decimal(n))) {
      DecimalClaim(claims.sub, n);
      assert chosen == claims.sub;
    } else if !Truthy(claims.UserId) && !Truthy(claims.userId) && !Truthy(claims.sub) {
      FalsyClaim(claims.sub);
    }
  }

  /** A falsy claim (absent, null, false, 0 or "") yields no id. */
  lemma FalsyClaim(v: Option<JsonValue>)
    requires !Truthy(v)
    ensures var id := ParseIntValue(v); id.None? || id.value == 0
  {
    if v.Some? && v.value.JStr? {
      assert v.value.s == [];
      assert TrimStart([]) == [];
      assert LeadingDigits([]) == [];
    }
  }

  /**
   * For a compact token `header.payload.signature`, the identity is the one
   * in the decoded payload, and there is none when the payload does not decode.
   */
  lemma IdentityOfCompactToken(header: string, payload: string, signature: string,
                               decode: string -> Option<Claims>)
    requires '.' !in header && '.' !in payload
    ensures var token := header + "." + payload + "." + signature;
      LearnerIdFromToken(token, decode) ==
        match decode(Base64UrlToBase64(payload))
        case None => None
        case Some(claims) => IdFromClaims(claims)
  {
    PayloadOfCompact(header, payload, signature);
  }

  // ---------------------------------------------------------------- validators

  /**
   * `validateMessage`: the TRIMMED comment must be non-blank and at least
   * 10 UTF-16 code units long (JavaScript's `length`).
   */
  function ValidateMessage(msg: string): (err: string)
    ensures err == [] <==> Utf16Length(Trim(msg)) >= 10
    ensures AllSpace(msg) ==> err == "Comments are required."
    ensures !AllSpace(msg) && Utf16Length(Trim(msg)) < 10 ==> err == "Comments must be at least 10 characters."
  {
    TrimEmpty(msg);
    if Trim(msg) == [] then "Comments are required."
    else if Utf16Length(Trim(msg)) < 10 then "Comments must be at least 10 characters."
    else ""
  }

  /** `validateRating`: a rating is accepted exactly when it is one of 1..5 (0 is falsy). */
  function ValidateRating(r: int): (err: string)
    ensures err == [] <==> 1 <= r <= 5
  {
    if r == 0 || r < 1 || r > 5 then "Please select a rating 1–5." else ""
  }

  /** The error pair that `validateFeedback` stores; the form is valid iff both are empty. */
  datatype FeedbackErrors = FeedbackErrors(message: string, rating: string)

  function ValidateFeedback(msg: string, rating: int): (e: FeedbackErrors)
    ensures (e.message == [] && e.rating == []) <==> Utf16Length(Trim(msg)) >= 10 && 1 <= rating <= 5
  {
    FeedbackErrors(ValidateMessage(msg), ValidateRating(rating))
  }

  // ---------------------------------------------------------------- file URLs

  const UploadsBase: string := "http://localhost:5254/uploads/"

  /** `c` is the ASCII letter `lower` in either case (the regex `i` flag). */
  predicate SameLetter(c: char, lower: char)
    requires 'a' <= lower <= 'z'
  {
    c == lower || c as int == lower as int - 32
  }

  /** `/^https?:\/\//i`: the path starts with `http://` or `https://`, in any letter case. */
  predicate HasHttpScheme(p: string)
  {
    && |p| >= 7
    && SameLetter(p[0], 'h') && SameLetter(p[1], 't') && SameLetter(p[2], 't') && SameLetter(p[3], 'p')
    && ((p[4] == ':' && p[5] == '/' && p[6] == '/')
        || (|p| >= 8 && SameLetter(p[4], 's') && p[5] == ':' && p[6] == '/' && p[7] == '/'))
  }

  /**
   * `getFileUrl`: no URL for a missing or empty path, an absolute http(s) URL
   * as it is, and any other path under the uploads folder.
   */
  function GetFileUrl(filePath: Option<string>): (r: Option<string>)
    ensures r.None? <==> filePath.None? || filePath.value == []
    ensures r.Some? ==> HasHttpScheme(r.value)
    ensures r.Some? && HasHttpScheme(filePath.value) ==> r.value == filePath.value
    ensures r.Some? && !HasHttpScheme(filePath.value) ==> r.value == UploadsBase + filePath.value
  {
    match filePath
    case None => None
    case Some(p) =>
      if p == [] then None
      else if HasHttpScheme(p) then Some(p)
      else
        var u := UploadsBase + p;
        assert u[..7] == "http://";
        Some(u)
  }

  /** A URL that `getFileUrl` produced is left as it is by a second application. */
  lemma GetFileUrlIdempotent(filePath: Option<string>)
    ensures GetFileUrl(GetFileUrl(filePath)) == GetFileUrl(filePath)
  {
  }

  // ---------------------------------------------------------------- modules and progress

  /**
   * A course module as the page holds it. `progressPercentage` and
   * `isCompleted` are absent on the server's module records and filled in
   * by the merge.
   */
  datatype Module = Module(id: int, name: string, filePath: Option<string>, description: Option<string>,
                           progressPercentage: Option<int>, isCompleted: Option<bool>)

  /** A per-module progress record of the current learner. */
  datatype ProgressRecord = ProgressRecord(learnerId: int, moduleId: int, courseId: int,
                                           progressPercentage: Option<int>, isCompleted: Option<bool>)

  /** `m.progressPercentage || 0`. */
  function ProgressOf(m: Module): int
  {
    m.progressPercentage.GetOr(0)
  }

  /** The sum that `calculateCourseProgress` reduces the module list to. */
  function SumProgress(ms: seq<Module>): int
  {
    if ms == [] then 0 else ProgressOf(ms[0]) + SumProgress(ms[1..])
  }

  /**
   * `calculateCourseProgress`: 0 for no modules, otherwise the floor of the
   * mean progress (`/` is floor division for a positive divisor, as `Math.floor`).
   */
  function CourseProgress(ms: seq<Module>): (r: int)
    ensures ms == [] ==> r == 0
    ensures ms != [] ==> r * |ms| <= SumProgress(ms) < (r + 1) * |ms|
  {
    if |ms| == 0 then 0 else SumProgress(ms) / |ms|
  }

  /** Every module's progress (missing counts as 0) lies in 0..100. */
  predicate PercentagesInRange(ms: seq<Module>)
  {
    forall i :: 0 <= i < |ms| ==> 0 <= ProgressOf(ms[i]) <= 100
  }

  lemma {:induction false} SumProgressBounds(ms: seq<Module>)
    requires PercentagesInRange(ms)
    ensures 0 <= SumProgress(ms) <= 100 * |ms|
  {
    if ms != [] {
      assert PercentagesInRange(ms[1..]) by {
        forall i | 0 <= i < |ms[1..]| ensures 0 <= ProgressOf(ms[1..][i]) <= 100 {
          assert ms[1..][i] == ms[i + 1];
        }
      }
      SumProgressBounds(ms[1..]);
    }
  }

  /** With every module in 0..100 the course progress is in 0..100 too. */
  lemma CourseProgressInRange(ms: seq<Module>)
    requires PercentagesInRange(ms)
    ensures 0 <= CourseProgress(ms) <= 100
  {
    SumProgressBounds(ms);
  }

  /** Taking one module out of the list takes its progress out of the sum. */
  lemma {:induction false} SumProgressRemove(ms: seq<Module>, k: nat)
    requires k < |ms|
    ensures SumProgress(ms) == ProgressOf(ms[k]) + SumProgress(ms[..k] + ms[k + 1..])
  {
    if k > 0 {
      SumProgressRemove(ms[1..], k - 1);
      assert ms[1..][..k - 1] + ms[1..][k..] == (ms[..k] + ms[k + 1..])[1..];
    } else {
      assert ms[..k] + ms[k + 1..] == ms[1..];
    }
  }

  /** Taking the same element out of two equal multisets leaves equal multisets. */
  lemma RemoveMatching(a: seq<Module>, b: seq<Module>, k: nat)
    requires multiset(a) == multiset(b) && a != [] && k < |b| && b[k] == a[0]
    ensures multiset(a[1..]) == multiset(b[..k] + b[k + 1..])
  {
    assert b == b[..k] + [b[k]] + b[k + 1..];
    assert a == [a[0]] + a[1..];
    assert multiset(b) == multiset(b[..k]) + multiset([b[k]]) + multiset(b[k + 1..]);
    assert multiset(a) == multiset([a[0]]) + multiset(a[1..]);
    assert multiset(a[1..]) == multiset(a) - multiset{a[0]};
    assert multiset(b[..k] + b[k + 1..]) == multiset(b[..k]) + multiset(b[k + 1..]);
    assert multiset(b[..k] + b[k + 1..]) == multiset(b) - multiset{b[k]};
  }

  /** The aggregate does not depend on the order of the modules. */
  lemma {:induction false} CourseProgressOrderIndependent(a: seq<Module>, b: seq<Module>)
    requires multiset(a) == multiset(b)
    ensures SumProgress(a) == SumProgress(b)
    ensures CourseProgress(a) == CourseProgress(b)
    decreases |a|
  {
    assert |a| == |multiset(a)| == |b|;
    if a != [] {
      assert a[0] in multiset(b);
      var k :| 0 <= k < |b| && b[k] == a[0];
      RemoveMatching(a, b, k);
      CourseProgressOrderIndependent(a[1..], b[..k] + b[k + 1..]);
      SumProgressRemove(b, k);
    }
  }

  /** Whether `p` belongs to module `id`. */
  function ForModule(id: int): ProgressRecord -> bool
  {
    (p: ProgressRecord) => p.moduleId == id
  }

  /**
   * `out` is `m` with progress merged in from `progress`: the fields of the
   * first record whose `moduleId` is `m.id` (a missing field as 0 / false),
   * or 0 / false when no record matches; every other field of `m` kept.
   */
  ghost predicate MergedFrom(m: Module, progress: seq<ProgressRecord>, out: Module)
  {
    && out.(progressPercentage := m.progressPercentage, isCompleted := m.isCompleted) == m
    && ((forall k :: 0 <= k < |progress| ==> progress[k].moduleId != m.id) ==>
          out.progressPercentage == Some(0) && out.isCompleted == Some(false))
    && (forall k :: (0 <= k < |progress| && progress[k].moduleId == m.id &&
                     forall j :: 0 <= j < k ==> progress[j].moduleId != m.id) ==>
          out.progressPercentage == Some(progress[k].progressPercentage.GetOr(0)) &&
          out.isCompleted == Some(progress[k].isCompleted.GetOr(false)))
  }

  /** One module of the merge: `{...m, progressPercentage: p.progressPercentage ?? 0, isCompleted: p.isCompleted ?? false}`. */
  function MergeOne(m: Module, progress: seq<ProgressRecord>): (out: Module)
    ensures MergedFrom(m, progress, out)
  {
    match FindIndex(progress, ForModule(m.id))
    case None =>
      m.(progressPercentage := Some(0), isCompleted := Some(false))
    case Some(k) =>
      var p := progress[k];
      m.(progressPercentage := Some(p.progressPercentage.GetOr(0)), isCompleted := Some(p.isCompleted.GetOr(false)))
  }

  /** The merge: the fetched modules, in order, each annotated from its first progress record. */
  function Merge(raw: seq<Module>, progress: seq<ProgressRecord>): (r: seq<Module>)
    ensures |r| == |raw|
    ensures forall i :: 0 <= i < |raw| ==> MergedFrom(raw[i], progress, r[i])
  {
    seq(|raw|, i requires 0 <= i < |raw| => MergeOne(raw[i], progress))
  }

  /** Merged progress is in 0..100 when every progress record's percentage is. */
  lemma MergeInRange(raw: seq<Module>, progress: seq<ProgressRecord>)
    requires forall k :: 0 <= k < |progress| ==> 0 <= progress[k].progressPercentage.GetOr(0) <= 100
    ensures PercentagesInRange(Merge(raw, progress))
  {
    var r := Merge(raw, progress);
    forall i | 0 <= i < |r| ensures 0 <= ProgressOf(r[i]) <= 100 {
      match FindIndex(progress, ForModule(raw[i].id))
      case None =>
      case Some(k) =>
    }
  }

  /** The worked example: modules 1 and 2, progress 40 for module 1 only, give 40, 0 and a course progress of 20. */
  lemma MergeExample(m1: Module, m2: Module, p: ProgressRecord)
    requires m1.id == 1 && m2.id == 2 && p.moduleId == 1 && p.progressPercentage == Some(40)
    ensures var r := Merge([m1, m2], [p]);
      && ProgressOf(r[0]) == 40 && ProgressOf(r[1]) == 0 && CourseProgress(r) == 20
  {
    var r := Merge([m1, m2], [p]);
    assert MergedFrom(m1, [p], r[0]);
    assert MergedFrom(m2, [p], r[1]);
    assert r[1..][1..] == [];
    assert SumProgress(r[1..][1..]) == 0;
    assert SumProgress(r[1..]) == 0;
    assert SumProgress(r) == 40;
  }

  // ---------------------------------------------------------------- list updates

  /** The module list after a pause sets module `id` to `pct` percent. */
  function WithProgress(ms: seq<Module>, id: int, pct: int): (r: seq<Module>)
    ensures |r| == |ms|
    ensures forall i :: 0 <= i < |ms| && ms[i].id != id ==> r[i] == ms[i]
    ensures forall i :: 0 <= i < |ms| && ms[i].id == id ==>
              r[i].progressPercentage == Some(pct) &&
              r[i].(progressPercentage := ms[i].progressPercentage) == ms[i]
  {
    seq(|ms|, i requires 0 <= i < |ms| =>
      if ms[i].id == id then ms[i].(progressPercentage := Some(pct)) else ms[i])
  }

  /** The module list after module `id` is completed: 100 percent and completed. */
  function WithCompleted(ms: seq<Module>, id: int): (r: seq<Module>)
    ensures |r| == |ms|
    ensures forall i :: 0 <= i < |ms| && ms[i].id != id ==> r[i] == ms[i]
    ensures forall i :: 0 <= i < |ms| && ms[i].id == id ==>
              r[i].progressPercentage == Some(100) && r[i].isCompleted == Some(true) &&
              r[i].(progressPercentage := ms[i].progressPercentage, isCompleted := ms[i].isCompleted) == ms[i]
  {
    seq(|ms|, i requires 0 <= i < |ms| =>
      if ms[i].id == id then ms[i].(progressPercentage := Some(100), isCompleted := Some(true)) else ms[i])
  }

  /** What the page has selected: nothing yet, the feedback panel, or a copy of a module taken when it was selected. */
  datatype Selection = NoSelection | FeedbackPanel | Snapshot(item: Module)

  /**
   * The pause transition of the module list AS WRITTEN: the new percentage
   * is compared with the selected snapshot, not with the list.
   */
  function PauseAsWritten(ms: seq<Module>, snapshot: Module, pct: int): seq<Module>
  {
    if pct > ProgressOf(snapshot) then WithProgress(ms, snapshot.id, pct) else ms
  }

  /**
   * With a snapshot that is never refreshed, a later, smaller percentage
   * overwrites a larger one: pausing at 80 then at 50 leaves 50.
   */
  lemma PauseAsWrittenCanLowerProgress(m: Module)
    requires m.progressPercentage == Some(0)
    ensures var after := PauseAsWritten(PauseAsWritten([m], m, 80), m, 50);
      ProgressOf(after[0]) == 50 < 80
  {
  }

  /** A pause after the end of the video undoes the 100 percent of a completed module. */
  lemma PauseAsWrittenBreaksCompletion(m: Module)
    requires m.progressPercentage == Some(0)
    ensures var after := PauseAsWritten(WithCompleted([m], m.id), m, 30);
      after[0].isCompleted == Some(true) && ProgressOf(after[0]) == 30
  {
  }

  /** The corrected pause: each entry of module `id` rises to `pct` only if that is above its own progress. */
  function RaiseProgress(ms: seq<Module>, id: int, pct: int): (r: seq<Module>)
    ensures |r| == |ms|
    ensures forall i :: 0 <= i < |ms| ==> r[i].(progressPercentage := ms[i].progressPercentage) == ms[i]
    ensures forall i :: 0 <= i < |ms| ==> ProgressOf(r[i]) >= ProgressOf(ms[i])
  {
    seq(|ms|, i requires 0 <= i < |ms| =>
      if ms[i].id == id && pct > ProgressOf(ms[i]) then ms[i].(progressPercentage := Some(pct)) else ms[i])
  }

  /** A module whose completion is reflected in the list: completed means 100 percent. */
  predicate CompletionConsistent(ms: seq<Module>)
  {
    forall i :: 0 <= i < |ms| && ms[i].isCompleted == Some(true) ==> ProgressOf(ms[i]) == 100
  }

  /**
   * The corrected pause keeps completed modules at 100 for any percentage
   * a video can report, and never lowers any module.
   */
  lemma RaiseProgressKeepsCompletion(ms: seq<Module>, id: int, pct: int)
    requires CompletionConsistent(ms) && pct <= 100
    ensures CompletionConsistent(RaiseProgress(ms, id, pct))
  {
  }

  /** Completing a module keeps the list consistent. */
  lemma WithCompletedKeepsCompletion(ms: seq<Module>, id: int)
    requires CompletionConsistent(ms)
    ensures CompletionConsistent(WithCompleted(ms, id))
  {
  }

  // ---------------------------------------------------------------- requests

  /** The body of a progress update request. */
  datatype ProgressUpdate = ProgressUpdate(learnerId: int, moduleId: int, courseId: int,
                                           progressPercentage: int, isCompleted: bool)

  /** The partial-update payload: completed exactly when at least 99 percent. */
  function PartialPayload(learnerId: int, moduleId: int, courseId: int, pct: int): (u: ProgressUpdate)
    ensures u.isCompleted <==> pct >= 99
    ensures u.progressPercentage == pct && u.moduleId == moduleId
  {
    ProgressUpdate(learnerId, moduleId, courseId, pct, pct >= 99)
  }

  /**
   * A debounced partial update: its payload, and the module list its
   * closure captured, which the later progress fetch falls back on.
   */
  datatype ScheduledUpdate = ScheduledUpdate(payload: ProgressUpdate, captured: seq<Module>)

  /**
   * The fallback of a pending update averages the list from before the
   * pause: a single module at 0 paused at 80 shows 80 until a reply
   * without `progress` puts the aggregate back to 0.
   */
  lemma StaleFallbackExample(m: Module)
    requires m.progressPercentage == Some(0)
    ensures CourseProgress(WithProgress([m], m.id, 80)) == 80
    ensures CourseProgress([m]) == 0
  {
    var after := WithProgress([m], m.id, 80);
    assert ProgressOf(after[0]) == 80;
    assert SumProgress(after) == 80 by {
      assert after[1..] == [];
    }
    assert [m][1..] == [];
  }

  /** The answer of the course-progress request: a failure, or a reply whose `progress` may be null. */
  datatype ProgressReply = RequestFailed | Replied(progress: Option<int>)

  /** The three collections fetched together once the learner is enrolled. */
  datatype CourseData = CourseData(modules: seq<Module>, progress: seq<ProgressRecord>, feedbacks: seq<Feedback>)

  /** Whether some feedback was written by `learnerId`. */
  predicate HasFeedbackFrom(fs: seq<Feedback>, learnerId: int)
  {
    exists i :: 0 <= i < |fs| && fs[i].learnerId == learnerId
  }

  // ---------------------------------------------------------------- the view

  class CourseView {
    const courseId: int
    const learnerId: int
    var modules: seq<Module>
    var selected: Selection
    var courseProgress: int
    var hasFeedback: bool
    var allFeedbacks: seq<Feedback>
    var enrolled: bool
    // the inline feedback form
    var feedbackMsg: string
    var feedbackRating: int
    var errors: FeedbackErrors
    var touchedMessage: bool
    var touchedRating: bool
    var feedbackSuccess: string

    /** The state before the first load. */
    constructor(courseId: int, learnerId: int)
      ensures this.courseId == courseId && this.learnerId == learnerId
      ensures modules == [] && selected == NoSelection && courseProgress == 0
      ensures !hasFeedback && allFeedbacks == [] && !enrolled
      ensures feedbackMsg == [] && feedbackRating == 0 && errors == FeedbackErrors([], [])
      ensures !touchedMessage && !touchedRating && feedbackSuccess == []
    {
      this.courseId := courseId;
      this.learnerId := learnerId;
      modules := [];
      selected := NoSelection;
      courseProgress := 0;
      hasFeedback := false;
      allFeedbacks := [];
      enrolled := false;
      feedbackMsg := [];
      feedbackRating := 0;
      errors := FeedbackErrors([], []);
      touchedMessage := false;
      touchedRating := false;
      feedbackSuccess := [];
    }

    /**
     * `loadData`. `enrollments` is the learner's course list (`None`: the
     * course or enrollment request failed); `details` is the result of the
     * three concurrent requests (`None`: at least one failed). Returns
     * whether those three requests are made.
     */
    method LoadData(enrollments: Option<seq<Enrollment>>, details: Option<CourseData>)
      returns (detailsRequested: bool)
      modifies this`modules, this`selected, this`courseProgress, this`hasFeedback,
               this`allFeedbacks, this`enrolled
      ensures enrollments.None? ==>
        !detailsRequested && modules == old(modules) && selected == old(selected) &&
        courseProgress == old(courseProgress) && hasFeedback == old(hasFeedback) &&
        allFeedbacks == old(allFeedbacks) && enrolled == old(enrolled)
      ensures enrollments.Some? ==>
        (enrolled <==> exists i :: 0 <= i < |enrollments.value| && enrollments.value[i].id == courseId)
      ensures enrollments.Some? ==> detailsRequested == enrolled
      ensures enrollments.Some? && !enrolled ==>
        modules == [] && selected == NoSelection && courseProgress == 0 &&
        allFeedbacks == [] && !hasFeedback
      ensures detailsRequested && details.None? ==>
        modules == old(modules) && selected == old(selected) && courseProgress == old(courseProgress) &&
        hasFeedback == old(hasFeedback) && allFeedbacks == old(allFeedbacks)
      ensures detailsRequested && details.Some? ==>
        var d := details.value;
        && modules == Merge(d.modules, d.progress)
        && selected == (if d.modules != [] then Snapshot(modules[0]) else old(selected))
        && allFeedbacks == d.feedbacks
        && (hasFeedback <==> HasFeedbackFrom(d.feedbacks, learnerId))
        && courseProgress == CourseProgress(modules)
    {
      detailsRequested := false;
      if enrollments.None? {
        return;
      }
      var found := FindIndex(enrollments.value, (e: Enrollment) => e.id == courseId);
      enrolled := found.Some?;
      if !enrolled {
        modules := [];
        selected := NoSelection;
        courseProgress := 0;
        allFeedbacks := [];
        hasFeedback := false;
        return;
      }
      detailsRequested := true;
      if details.None? {
        return;
      }
      var d := details.value;
      var merged := Merge(d.modules, d.progress);
      modules := merged;
      if |merged| > 0 {
        selected := Snapshot(merged[0]);
      }
      allFeedbacks := d.feedbacks;
      var mine := FindIndex(d.feedbacks, (f: Feedback) => f.learnerId == learnerId);
      hasFeedback := mine.Some?;
      courseProgress := CourseProgress(merged);
    }

    /**
     * `fetchCourseProgress`, run by a pending partial update: the server's
     * aggregate when it sends one, else the aggregate of `captured`, the
     * module list the update's memoised closure holds (the list of the
     * render in which the pause happened, before the pause changed it).
     */
    method FetchCourseProgress(reply: ProgressReply, captured: seq<Module>)
      modifies this`courseProgress
      ensures reply.Replied? && reply.progress.Some? ==> courseProgress == reply.progress.value
      ensures !(reply.Replied? && reply.progress.Some?) ==> courseProgress == CourseProgress(captured)
    {
      match reply
      case Replied(Some(p)) => courseProgress := p;
      case _ => courseProgress := CourseProgress(captured);
    }

    /** A click on a module of the list selects a copy of it. */
    method SelectModule(i: nat)
      requires i < |modules|
      modifies this`selected
      ensures selected == Snapshot(modules[i])
    {
      selected := Snapshot(modules[i]);
    }

    /** A click on "Leave Feedback". */
    method SelectFeedback()
      modifies this`selected
      ensures selected == FeedbackPanel
    {
      selected := FeedbackPanel;
    }

    /**
     * `handleVideoPause` with the sampled percentage `pct`, as written: the
     * comparison is with the selected snapshot, which the pause leaves as it
     * is. Returns the partial update it schedules, if any, together with
     * the list from before the pause that the update's closure holds.
     */
    method HandleVideoPause(pct: int) returns (scheduled: Option<ScheduledUpdate>)
      modifies this`modules, this`courseProgress
      ensures !selected.Snapshot? ==>
        scheduled.None? && modules == old(modules) && courseProgress == old(courseProgress)
      ensures selected.Snapshot? ==>
        var snap := selected.item;
        && modules == PauseAsWritten(old(modules), snap, pct)
        && (pct > ProgressOf(snap) ==>
              courseProgress == CourseProgress(modules) &&
              scheduled == Some(ScheduledUpdate(PartialPayload(learnerId, snap.id, courseId, pct), old(modules))))
        && (pct <= ProgressOf(snap) ==> courseProgress == old(courseProgress) && scheduled.None?)
    {
      scheduled := None;
      match selected
      case Snapshot(snap) =>
        if pct > ProgressOf(snap) {
          var captured := modules;
          modules := WithProgress(modules, snap.id, pct);
          courseProgress := CourseProgress(modules);
          scheduled := Some(ScheduledUpdate(PartialPayload(learnerId, snap.id, courseId, pct), captured));
        }
      case _ =>
    }

    /**
     * The corrected pause: each entry of the selected module is compared
     * with its own progress in the list; an update is scheduled only when
     * the list changed.
     */
    method HandleVideoPauseMonotone(pct: int) returns (scheduled: Option<ScheduledUpdate>)
      modifies this`modules, this`courseProgress
      ensures !selected.Snapshot? ==>
        scheduled.None? && modules == old(modules) && courseProgress == old(courseProgress)
      ensures selected.Snapshot? ==> modules == RaiseProgress(old(modules), selected.item.id, pct)
      ensures forall i :: 0 <= i < |modules| ==> ProgressOf(modules[i]) >= ProgressOf(old(modules)[i])
      ensures scheduled.Some? <==> modules != old(modules)
      ensures scheduled.Some? ==>
        courseProgress == CourseProgress(modules) &&
        scheduled.value == ScheduledUpdate(PartialPayload(learnerId, selected.item.id, courseId, pct), old(modules))
      ensures scheduled.None? ==> courseProgress == old(courseProgress)
    {
      scheduled := None;
      match selected
      case Snapshot(snap) =>
        var raised := RaiseProgress(modules, snap.id, pct);
        if raised != modules {
          var captured := modules;
          modules := raised;
          courseProgress := CourseProgress(modules);
          scheduled := Some(ScheduledUpdate(PartialPayload(learnerId, snap.id, courseId, pct), captured));
        }
      case _ =>
    }

    /**
     * `handleVideoEnd`: the completion request is sent for the selected
     * module; the list and the aggregate change only when it succeeds.
     */
    method HandleVideoEnd(ok: bool) returns (sent: Option<ProgressUpdate>)
      modifies this`modules, this`courseProgress
      ensures !selected.Snapshot? ==>
        sent.None? && modules == old(modules) && courseProgress == old(courseProgress)
      ensures selected.Snapshot? ==>
        sent == Some(ProgressUpdate(learnerId, selected.item.id, courseId, 100, true))
      ensures selected.Snapshot? && ok ==>
        modules == WithCompleted(old(modules), selected.item.id) &&
        courseProgress == CourseProgress(modules)
      ensures !ok ==> modules == old(modules) && courseProgress == old(courseProgress)
    {
      sent := None;
      match selected
      case Snapshot(snap) =>
        sent := Some(ProgressUpdate(learnerId, snap.id, courseId, 100, true));
        if ok {
          modules := WithCompleted(modules, snap.id);
          courseProgress := CourseProgress(modules);
        }
      case _ =>
    }

    /** Typing in the comment box: re-validated only once the box was touched. */
    method ChangeMessage(value: string)
      modifies this`feedbackMsg, this`errors
      ensures feedbackMsg == value
      ensures errors == if touchedMessage then old(errors).(message := ValidateMessage(value)) else old(errors)
    {
      feedbackMsg := value;
      if touchedMessage {
        errors := errors.(message := ValidateMessage(value));
      }
    }

    /** Leaving the comment box marks it touched and validates it. */
    method BlurMessage()
      modifies this`touchedMessage, this`errors
      ensures touchedMessage && errors == old(errors).(message := ValidateMessage(feedbackMsg))
    {
      touchedMessage := true;
      errors := errors.(message := ValidateMessage(feedbackMsg));
    }

    /** A click on star `n`: re-validated only once the rating was touched. */
    method ClickStar(n: int)
      modifies this`feedbackRating, this`errors
      ensures feedbackRating == n
      ensures errors == if touchedRating then old(errors).(rating := ValidateRating(n)) else old(errors)
    {
      feedbackRating := n;
      if touchedRating {
        errors := errors.(rating := ValidateRating(n));
      }
    }

    /**
     * Submitting the inline feedback form: both fields become touched and
     * validated; only a valid form sends `data`'s request, and only its
     * success records the feedback.
     */
    method SubmitFeedback(ok: bool, data: Feedback) returns (sent: bool)
      modifies this`touchedMessage, this`touchedRating, this`errors, this`feedbackSuccess,
               this`hasFeedback, this`allFeedbacks
      ensures touchedMessage && touchedRating
      ensures errors == ValidateFeedback(feedbackMsg, feedbackRating)
      ensures sent <==> Utf16Length(Trim(feedbackMsg)) >= 10 && 1 <= feedbackRating <= 5
      ensures sent && ok ==>
        feedbackSuccess == "Thank you for your feedback!" && hasFeedback &&
        allFeedbacks == old(allFeedbacks) + [data]
      ensures !(sent && ok) ==>
        feedbackSuccess == old(feedbackSuccess) && hasFeedback == old(hasFeedback) &&
        allFeedbacks == old(allFeedbacks)
    {
      touchedMessage, touchedRating := true, true;
      var e := ValidateFeedback(feedbackMsg, feedbackRating);
      errors := e;
      sent := e.message == [] && e.rating == [];
      if sent && ok {
        feedbackSuccess := "Thank you for your feedback!";
        hasFeedback := true;
        allFeedbacks := allFeedbacks + [data];
      }
    }
  }
}
