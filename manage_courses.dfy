/**
 * The administrator's course overview: the takedown requests among the
 * notifications, the per-course module counts, and approving a takedown.
 */
module ManageCourses {
  import opened Wrappers
  import opened Seqs
  import opened Records

  const LoginRoute: string := "/admin-login"
  const TakedownsFailed: string := "Failed to load takedown requests."
  const ApprovalFailed: string := "Approval failed. Try again."
  const TakedownKind: string := "TakedownRequested"

  /** A notification; `kind` is the server's `type`. */
  datatype Notification = Notification(id: int, kind: string, courseId: int)

  predicate IsTakedown(n: Notification)
  {
    n.kind == TakedownKind
  }

  /** The notifications of kind "TakedownRequested", in their order. */
  function Takedowns(notifs: seq<Notification>): (r: seq<Notification>)
    ensures forall n :: n in r <==> n in notifs && IsTakedown(n)
    ensures forall n :: multiset(r)[n] == if IsTakedown(n) then multiset(notifs)[n] else 0
  {
    var r := Filter(notifs, IsTakedown);
    forall n ensures n in r <==> n in notifs && IsTakedown(n) {
      FilterMember(notifs, IsTakedown, n);
    }
    forall n ensures multiset(r)[n] == if IsTakedown(n) then multiset(notifs)[n] else 0 {
      FilterCount(notifs, IsTakedown, n);
    }
    r
  }

  /** Takedowns of a concatenation are the takedowns of each part, one after the other. */
  lemma TakedownsInOrder(a: seq<Notification>, b: seq<Notification>)
    ensures Takedowns(a + b) == Takedowns(a) + Takedowns(b)
  {
    FilterAppend(a, b, IsTakedown);
  }

  /**
   * The count map as the writes `countMap[c.id] = length` leave it, one
   * write per course in list order (a later course with the same id wins).
   */
  function CountMapOf(courses: seq<Course>, lengths: seq<nat>): map<int, nat>
    requires |lengths| == |courses|
  {
    if courses == [] then map[]
    else
      var n := |courses| - 1;
      CountMapOf(courses[..n], lengths[..n])[courses[n].id := lengths[n]]
  }

  /** One entry per course id. */
  lemma {:induction false} CountMapKeys(courses: seq<Course>, lengths: seq<nat>)
    requires |lengths| == |courses|
    ensures CountMapOf(courses, lengths).Keys == set c | c in courses :: c.id
  {
    if courses != [] {
      var n := |courses| - 1;
      CountMapKeys(courses[..n], lengths[..n]);
      assert courses == courses[..n] + [courses[n]];
    }
  }

  /** A course's entry is its own module count unless a later course has the same id. */
  lemma {:induction false} CountMapEntry(courses: seq<Course>, lengths: seq<nat>, i: int)
    requires |lengths| == |courses| && 0 <= i < |courses|
    requires forall j :: i < j < |courses| ==> courses[j].id != courses[i].id
    ensures courses[i].id in CountMapOf(courses, lengths)
    ensures CountMapOf(courses, lengths)[courses[i].id] == lengths[i]
  {
    var n := |courses| - 1;
    if i < n {
      CountMapEntry(courses[..n], lengths[..n], i);
    }
  }

  /**
   * The count loop over the module-list responses (`None` where a
   * request failed): all succeed, or there is no map at all.
   */
  method BuildCountMap(courses: seq<Course>, lengths: seq<Option<nat>>) returns (r: Option<map<int, nat>>)
    requires |lengths| == |courses|
    ensures r.Some? <==> forall k :: 0 <= k < |lengths| ==> lengths[k].Some?
    ensures r.Some? ==> r.value == CountMapOf(courses, seq(|lengths|, k requires 0 <= k < |lengths| => lengths[k].GetOr(0)))
  {
    var values := seq(|lengths|, k requires 0 <= k < |lengths| => lengths[k].GetOr(0));
    var countMap: map<int, nat> := map[];
    var i := 0;
    while i < |courses|
      invariant 0 <= i <= |courses|
      invariant forall k :: 0 <= k < i ==> lengths[k].Some?
      invariant countMap == CountMapOf(courses[..i], values[..i])
    {
      if lengths[i].None? {
        return None;
      }
      assert courses[..i + 1][..i] == courses[..i] && values[..i + 1][..i] == values[..i];
      countMap := countMap[courses[i].id := lengths[i].value];
      i := i + 1;
    }
    assert courses[..i] == courses && values[..i] == values;
    return Some(countMap);
  }

  /** `modulesCountMap[course.id] ?? 0`. */
  function DisplayedCount(countMap: map<int, nat>, id: int): (n: nat)
    ensures id in countMap ==> n == countMap[id]
    ensures id !in countMap ==> n == 0
  {
    if id in countMap then countMap[id] else 0
  }

  /** The takedown an Approve button acts on: the first one for the course, if any. */
  function ApproveTarget(takedowns: seq<Notification>, courseId: int): (r: Option<Notification>)
    ensures r.None? <==> forall k :: 0 <= k < |takedowns| ==> takedowns[k].courseId != courseId
    ensures r.Some? ==> exists k :: 0 <= k < |takedowns| && takedowns[k] == r.value &&
                                    r.value.courseId == courseId &&
                                    forall j :: 0 <= j < k ==> takedowns[j].courseId != courseId
  {
    Find(takedowns, (n: Notification) => n.courseId == courseId)
  }

  class Overview {
    var courses: seq<Course>
    var takedownRequests: seq<Notification>
    var modulesCountMap: map<int, nat>
    var message: string

    constructor()
      ensures courses == [] && takedownRequests == [] && modulesCountMap == map[] && message == []
    {
      courses, takedownRequests, modulesCountMap, message := [], [], map[], [];
    }

    /** The two totals shown on the page. */
    function Totals(): (r: (nat, nat))
      reads this
      ensures r == (|courses|, |takedownRequests|)
    {
      (|courses|, |takedownRequests|)
    }

    /**
     * The load effect with the stored token and the responses (`None`
     * for a failed request): no token, or a failed course or count
     * request, sends the user to the admin login; a failed notifications
     * request only sets the message.
     */
    method LoadData(token: Option<string>, allCourses: Option<seq<Course>>, lengths: seq<Option<nat>>,
                    notifs: Option<seq<Notification>>) returns (route: Option<string>)
      requires allCourses.Some? ==> |lengths| == |allCourses.value|
      modifies this
      ensures (token.None? || token.value == []) ==>
        route == Some(LoginRoute) && courses == old(courses) && takedownRequests == old(takedownRequests) &&
        modulesCountMap == old(modulesCountMap) && message == old(message)
      ensures token.Some? && token.value != [] && allCourses.None? ==>
        route == Some(LoginRoute) && courses == old(courses) && takedownRequests == old(takedownRequests) &&
        modulesCountMap == old(modulesCountMap) && message == old(message)
      ensures token.Some? && token.value != [] && allCourses.Some? ==> courses == allCourses.value
      ensures token.Some? && token.value != [] && allCourses.Some? &&
              (exists k :: 0 <= k < |lengths| && lengths[k].None?) ==>
        route == Some(LoginRoute) && takedownRequests == old(takedownRequests) &&
        modulesCountMap == old(modulesCountMap) && message == old(message)
      ensures token.Some? && token.value != [] && allCourses.Some? &&
              (forall k :: 0 <= k < |lengths| ==> lengths[k].Some?) ==>
        route.None? &&
        modulesCountMap == CountMapOf(allCourses.value, seq(|lengths|, k requires 0 <= k < |lengths| => lengths[k].GetOr(0))) &&
        (notifs.Some? ==> takedownRequests == Takedowns(notifs.value) && message == old(message)) &&
        (notifs.None? ==> takedownRequests == old(takedownRequests) && message == TakedownsFailed)
    {
      if token.None? || token.value == [] {
        return Some(LoginRoute);
      }
      if allCourses.None? {
        return Some(LoginRoute);
      }
      courses := allCourses.value;
      var counts := BuildCountMap(allCourses.value, lengths);
      if counts.None? {
        return Some(LoginRoute);
      }
      modulesCountMap := counts.value;
      route := None;
      if notifs.Some? {
        takedownRequests := Takedowns(notifs.value);
      } else {
        message := TakedownsFailed;
      }
    }

    /**
     * `handleApprove` once both deletions are answered (`ok` when both
     * succeed): the course, its takedown and its count entry go, nothing
     * else changes; on failure only the message changes.
     */
    method HandleApprove(courseId: int, notificationId: int, ok: bool)
      modifies this`courses, this`takedownRequests, this`modulesCountMap, this`message
      ensures ok ==> courses == Filter(old(courses), (c: Course) => c.id != courseId)
      ensures ok ==> takedownRequests == Filter(old(takedownRequests), (n: Notification) => n.id != notificationId)
      ensures ok ==> forall c :: c in courses <==> c in old(courses) && c.id != courseId
      ensures ok ==> forall n :: n in takedownRequests <==> n in old(takedownRequests) && n.id != notificationId
      ensures ok ==> modulesCountMap == old(modulesCountMap) - {courseId} && message == old(message)
      ensures !ok ==> courses == old(courses) && takedownRequests == old(takedownRequests) &&
                      modulesCountMap == old(modulesCountMap) && message == ApprovalFailed
    {
      if !ok {
        message := ApprovalFailed;
        return;
      }
      var keepCourse := (c: Course) => c.id != courseId;
      var keepNotif := (n: Notification) => n.id != notificationId;
      forall c ensures c in Filter(courses, keepCourse) <==> c in courses && c.id != courseId {
        FilterMember(courses, keepCourse, c);
      }
      forall n ensures n in Filter(takedownRequests, keepNotif) <==> n in takedownRequests && n.id != notificationId {
        FilterMember(takedownRequests, keepNotif, n);
      }
      courses := Filter(courses, keepCourse);
      takedownRequests := Filter(takedownRequests, keepNotif);
      modulesCountMap := modulesCountMap - {courseId};
    }
  }
}
