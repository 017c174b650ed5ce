/**
 * The course feedback page: the list of a course's feedbacks, its star
 * rendering, and the submit handler that appends to the list.
 */
module CourseFeedback {
  import opened Wrappers
  import opened Records
  import Jwt

  const Filled: char := '\U{2605}'
  const Empty: char := '\U{2606}'

  const LoadFailed: string := "Failed to load feedbacks."
  const RatingMissing: string := "Please select a rating."
  const SubmitFailed: string := "Failed to submit feedback."
  const Submitted: string := "Feedback submitted successfully!"

  /** `c.repeat(n)`; `None` is the range error a negative count raises. */
  function Repeat(c: char, n: int): (r: Option<string>)
    ensures r.Some? <==> n >= 0
    ensures r.Some? ==> |r.value| == n && forall k :: 0 <= k < n ==> r.value[k] == c
  {
    if n < 0 then None else Some(seq(n, _ => c))
  }

  /** The stars of a rating: filled ones then empty ones; `None` where rendering throws. */
  function Stars(rating: int): Option<string>
  {
    var filled := Repeat(Filled, rating);
    var empty := Repeat(Empty, 5 - rating);
    if filled.Some? && empty.Some? then Some(filled.value + empty.value) else None
  }

  /** For a rating in 0..5 there are five stars, the first `rating` filled; any other rating fails to render. */
  lemma StarsShape(rating: int)
    ensures Stars(rating).Some? <==> 0 <= rating <= 5
    ensures Stars(rating).Some? ==>
      var s := Stars(rating).value;
      |s| == 5 && forall k :: 0 <= k < 5 ==> s[k] == (if k < rating then Filled else Empty)
  {
    if 0 <= rating <= 5 {
      var s := Stars(rating).value;
      forall k | 0 <= k < 5 ensures s[k] == (if k < rating then Filled else Empty) {
        if k >= rating {
          assert s[k] == Repeat(Empty, 5 - rating).value[k - rating];
        }
      }
    }
  }

  /** The body of the post. */
  datatype Submission = Submission(courseId: Option<int>, message: string, rating: int)

  class Page {
    const id: string
    var feedbacks: seq<Feedback>
    var error: string
    var formMessage: string
    var formRating: int
    var success: string

    constructor(id: string)
      ensures this.id == id && feedbacks == [] && error == [] && formMessage == [] && formRating == 0 && success == []
    {
      this.id := id;
      feedbacks, error := [], [];
      formMessage, formRating, success := [], 0, [];
    }

    /** The load effect with the fetched list (`None` when the request fails); nothing happens without an id. */
    method Load(reply: Option<seq<Feedback>>)
      modifies this`feedbacks, this`error
      ensures id == [] ==> feedbacks == old(feedbacks) && error == old(error)
      ensures id != [] && reply.Some? ==> feedbacks == reply.value && error == []
      ensures id != [] && reply.None? ==> feedbacks == old(feedbacks) && error == LoadFailed
    {
      if id != [] {
        error := [];
        if reply.Some? {
          feedbacks := reply.value;
        } else {
          error := LoadFailed;
        }
      }
    }

    /**
     * `handleSubmit` with the created feedback (`None` when the post
     * fails): no rating sends nothing; success appends the reply after the
     * existing feedbacks and resets the form; failure only sets the error.
     */
    method Submit(reply: Option<Feedback>) returns (sent: Option<Submission>)
      modifies this`feedbacks, this`error, this`formMessage, this`formRating, this`success
      ensures sent.None? <==> old(formRating) == 0
      ensures sent.None? ==>
        error == RatingMissing && feedbacks == old(feedbacks) &&
        formMessage == old(formMessage) && formRating == old(formRating) && success == old(success)
      ensures sent.Some? ==> sent.value == Submission(Jwt.ParseInt(id), old(formMessage), old(formRating))
      ensures sent.Some? && reply.Some? ==>
        feedbacks == old(feedbacks) + [reply.value] && |feedbacks| == |old(feedbacks)| + 1 &&
        feedbacks[..|old(feedbacks)|] == old(feedbacks) &&
        error == [] && success == Submitted && formMessage == [] && formRating == 0
      ensures sent.Some? && reply.None? ==>
        feedbacks == old(feedbacks) && error == SubmitFailed && success == old(success) &&
        formMessage == old(formMessage) && formRating == old(formRating)
    {
      if formRating == 0 {
        error := RatingMissing;
        return None;
      }
      error := [];
      sent := Some(Submission(Jwt.ParseInt(id), formMessage, formRating));
      if reply.Some? {
        feedbacks := feedbacks + [reply.value];
        success := Submitted;
        formMessage, formRating := [], 0;
      } else {
        error := SubmitFailed;
      }
    }
  }
}
