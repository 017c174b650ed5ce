/**
 * The learner dashboard's derivations: the learner id claim, trainer
 * enrichment of the enrollments, the counts, and the three most recent
 * enrollments.
 */
module LearnerHome {
  import opened Wrappers
  import opened Seqs
  import opened Records
  import Jwt

  /** `payload.userId || payload.sub`. */
  function LearnerIdClaim(claims: Jwt.Claims): (r: Option<Jwt.JsonValue>)
    ensures Jwt.Truthy(claims.userId) ==> r == claims.userId
    ensures !Jwt.Truthy(claims.userId) ==> r == claims.sub
  {
    Jwt.Or(claims.userId, claims.sub)
  }

  const NoTrainer: Trainer := Trainer("N/A")

  /** The trainer shown for an enrollment: that of the first course with the same id, else "N/A". */
  function TrainerFor(e: Enrollment, courses: seq<Course>): Trainer
  {
    match Find(courses, (c: Course) => c.id == e.id)
    case Some(c) => c.trainer.GetOr(NoTrainer)
    case None => NoTrainer
  }

  /** Each enrollment with its trainer filled in. */
  function Enrich(enrollments: seq<Enrollment>, courses: seq<Course>): (r: seq<Enrollment>)
    ensures |r| == |enrollments|
    ensures forall i :: 0 <= i < |r| ==> r[i] == enrollments[i].(trainer := Some(TrainerFor(enrollments[i], courses)))
  {
    seq(|enrollments|, i requires 0 <= i < |enrollments| => enrollments[i].(trainer := Some(TrainerFor(enrollments[i], courses))))
  }

  /** Enrichment takes the trainer of the first course with a matching id, and "N/A" when there is none or it has no trainer. */
  lemma EnrichTrainer(enrollments: seq<Enrollment>, courses: seq<Course>, i: int)
    requires 0 <= i < |enrollments|
    ensures var t := Enrich(enrollments, courses)[i].trainer.value;
            (forall k :: 0 <= k < |courses| ==> courses[k].id != enrollments[i].id) ==> t == NoTrainer
    ensures var t := Enrich(enrollments, courses)[i].trainer.value;
            forall k :: 0 <= k < |courses| && courses[k].id == enrollments[i].id &&
                        (forall j :: 0 <= j < k ==> courses[j].id != enrollments[i].id) ==>
                        t == courses[k].trainer.GetOr(NoTrainer)
  {
    var p := (c: Course) => c.id == enrollments[i].id;
    var f := FindIndex(courses, p);
    forall k | 0 <= k < |courses| && courses[k].id == enrollments[i].id &&
               (forall j :: 0 <= j < k ==> courses[j].id != enrollments[i].id)
      ensures f == Some(k)
    {
      assert p(courses[k]);
    }
  }

  datatype Stats = Stats(total: int, completed: int, inProgress: int, notifications: int)

  predicate IsCompleted(e: Enrollment)
  {
    e.status == "Completed"
  }

  /** The dashboard counts before notifications arrive. */
  function ComputeStats(enriched: seq<Enrollment>): (s: Stats)
    ensures s.total == |enriched| && s.notifications == 0
    ensures s.completed == |Filter(enriched, IsCompleted)|
    ensures 0 <= s.completed && 0 <= s.inProgress && s.completed + s.inProgress == s.total
  {
    var completed := |Filter(enriched, IsCompleted)|;
    Stats(|enriched|, completed, |enriched| - completed, 0)
  }

  /** Enrichment changes no status, so it changes no count. */
  lemma {:induction false} EnrichKeepsStats(enrollments: seq<Enrollment>, courses: seq<Course>)
    ensures ComputeStats(Enrich(enrollments, courses)) == ComputeStats(enrollments)
  {
    var r := Enrich(enrollments, courses);
    if enrollments != [] {
      EnrichKeepsStats(enrollments[1..], courses);
      assert Enrich(enrollments, courses)[1..] == Enrich(enrollments[1..], courses);
      assert IsCompleted(r[0]) == IsCompleted(enrollments[0]);
    }
  }

  /** Non-increasing by enrollment time. */
  predicate Recency(s: seq<Enrollment>)
  {
    forall i, j :: 0 <= i < j < |s| ==> s[i].enrolledAt >= s[j].enrolledAt
  }

  /** Place `x` before the first element not more recent than it. */
  function Insert(x: Enrollment, s: seq<Enrollment>): (r: seq<Enrollment>)
    ensures |r| == |s| + 1
  {
    if s == [] || s[0].enrolledAt <= x.enrolledAt then [x] + s
    else [s[0]] + Insert(x, s[1..])
  }

  /** The sort on a copy by `b.enrolledAt - a.enrolledAt`: most recent first, ties in their original order. */
  function SortByRecency(s: seq<Enrollment>): (r: seq<Enrollment>)
    ensures |r| == |s|
  {
    if s == [] then [] else Insert(s[0], SortByRecency(s[1..]))
  }

  lemma {:induction false} InsertPermutes(x: Enrollment, s: seq<Enrollment>)
    ensures multiset(Insert(x, s)) == multiset(s) + multiset{x}
  {
    if s != [] && s[0].enrolledAt > x.enrolledAt {
      InsertPermutes(x, s[1..]);
      assert s == [s[0]] + s[1..];
    }
  }

  lemma {:induction false} InsertOrdered(x: Enrollment, s: seq<Enrollment>)
    requires Recency(s)
    ensures Recency(Insert(x, s))
  {
    if s != [] && s[0].enrolledAt > x.enrolledAt {
      var t := Insert(x, s[1..]);
      InsertOrdered(x, s[1..]);
      InsertPermutes(x, s[1..]);
      forall k | 0 <= k < |t| ensures s[0].enrolledAt >= t[k].enrolledAt {
        assert t[k] in multiset(s[1..]) + multiset{x};
        if t[k] != x {
          var m :| 0 <= m < |s[1..]| && s[1..][m] == t[k];
          assert s[m + 1] == t[k];
        }
      }
      var r := [s[0]] + t;
      assert Insert(x, s) == r;
      forall i, j | 0 <= i < j < |r| ensures r[i].enrolledAt >= r[j].enrolledAt {
        if i > 0 {
          assert r[i] == t[i - 1] && r[j] == t[j - 1];
        } else {
          assert r[j] == t[j - 1];
        }
      }
    } else {
      var r := [x] + s;
      forall i, j | 0 <= i < j < |r| ensures r[i].enrolledAt >= r[j].enrolledAt {
        if i > 0 {
          assert r[i] == s[i - 1] && r[j] == s[j - 1];
        } else {
          assert r[j] == s[j - 1];
        }
      }
    }
  }

  /** The sorted copy is a permutation of the list and is ordered most recent first. */
  lemma {:induction false} SortByRecencyCorrect(s: seq<Enrollment>)
    ensures multiset(SortByRecency(s)) == multiset(s)
    ensures Recency(SortByRecency(s))
  {
    if s != [] {
      SortByRecencyCorrect(s[1..]);
      InsertPermutes(s[0], SortByRecency(s[1..]));
      InsertOrdered(s[0], SortByRecency(s[1..]));
      assert s == [s[0]] + s[1..];
    }
  }

  /** `sorted.slice(0, 3)`. */
  function Recent(enriched: seq<Enrollment>): seq<Enrollment>
  {
    var sorted := SortByRecency(enriched);
    if |sorted| <= 3 then sorted else sorted[..3]
  }

  /** At most three entries, all from the list, most recent first, and none left out is more recent than any shown. */
  lemma RecentCorrect(enriched: seq<Enrollment>)
    ensures var r := Recent(enriched);
            |r| == (if |enriched| < 3 then |enriched| else 3) && Recency(r) &&
            (forall x :: x in r ==> x in enriched)
    ensures var r := Recent(enriched);
            forall e, k :: e in enriched && e !in r && 0 <= k < |r| ==> r[k].enrolledAt >= e.enrolledAt
  {
    var sorted := SortByRecency(enriched);
    SortByRecencyCorrect(enriched);
    var r := Recent(enriched);
    assert r == sorted[..|r|];
    forall x | x in r ensures x in enriched {
      assert x in multiset(sorted);
    }
    forall e, k | e in enriched && e !in r && 0 <= k < |r| ensures r[k].enrolledAt >= e.enrolledAt {
      assert e in multiset(sorted);
      var j :| 0 <= j < |sorted| && sorted[j] == e;
      assert r[k] == sorted[k];
    }
  }

  /** What the page ends with: back to the login page (dropping the token), or the dashboard. */
  datatype Outcome =
    | ToLogin(dropToken: bool)
    | Dashboard(learnerId: Option<Jwt.JsonValue>, stats: Stats, recent: seq<Enrollment>)

  /**
   * The load effect, given the stored token, its decoded claims (`None`
   * when decoding throws) and each response (`None` when the request
   * fails; for notifications, the length of the returned list).
   */
  function Load(token: Option<string>, claims: Option<Jwt.Claims>, enrollments: Option<seq<Enrollment>>,
                courses: Option<seq<Course>>, notifications: Option<nat>): (o: Outcome)
    ensures (token.None? || token.value == []) ==> o == ToLogin(false)
    ensures o.Dashboard? <==> token.Some? && token.value != [] && claims.Some? && enrollments.Some? &&
                              courses.Some? && notifications.Some?
    ensures o.Dashboard? ==>
      var enriched := Enrich(enrollments.value, courses.value);
      o.learnerId == LearnerIdClaim(claims.value) &&
      o.stats == ComputeStats(enrollments.value).(notifications := notifications.value) &&
      o.recent == Recent(enriched)
  {
    if token.None? || token.value == [] then ToLogin(false)
    else if claims.None? || enrollments.None? || courses.None? || notifications.None? then ToLogin(true)
    else
      var enriched := Enrich(enrollments.value, courses.value);
      EnrichKeepsStats(enrollments.value, courses.value);
      Dashboard(LearnerIdClaim(claims.value), ComputeStats(enriched).(notifications := notifications.value),
                Recent(enriched))
  }
}
