/**
 * The reusable feedback form: its error dictionary, blur, star clicks
 * and the submit that hands the created feedback to its parent.
 */
module FeedbackForm {
  import opened Wrappers
  import opened Text
  import opened Records
  import LearnerCourseDetails

  datatype Field = Message | Rating

  const MessageRequired: string := "Comments are required."
  const MessageTooShort: string := "Comments must be at least 10 characters."
  const RatingMissing: string := "Please select a rating."
  const Submitted: string := "Feedback submitted successfully!"
  const SubmitFailed: string := "Failed to submit feedback."

  /** The dictionary after a successful submit: both keys present and empty. */
  const Cleared: map<Field, string> := map[Message := "", Rating := ""]

  /**
   * `validate`'s dictionary: a message blank after trimming, or shorter
   * than 10 UTF-16 code units untrimmed, and a rating outside 1..5 each get a key.
   */
  function Validate(msg: string, rating: int): (errs: map<Field, string>)
    ensures Message in errs <==> AllSpace(msg) || Utf16Length(msg) < 10
    ensures Message in errs ==> errs[Message] == if AllSpace(msg) then MessageRequired else MessageTooShort
    ensures Rating in errs <==> rating < 1 || rating > 5
    ensures Rating in errs ==> errs[Rating] == RatingMissing
    ensures errs == map[] <==> !AllSpace(msg) && Utf16Length(msg) >= 10 && 1 <= rating <= 5
  {
    TrimEmpty(msg);
    var m: map<Field, string> :=
      if Trim(msg) == [] then map[Message := MessageRequired]
      else if Utf16Length(msg) < 10 then map[Message := MessageTooShort]
      else map[];
    var errs := if rating < 1 || rating > 5 then m[Rating := RatingMissing] else m;
    assert Message in errs ==> errs != map[];
    assert Rating in errs ==> errs != map[];
    errs
  }

  /**
   * The two message rules differ: whatever the course page accepts
   * (trimmed length at least 10 code units) this form accepts, but ten
   * characters of which nine are padding pass here and fail there.
   */
  lemma MessageRulesCompared(msg: string)
    ensures LearnerCourseDetails.ValidateMessage(msg) == [] ==> Message !in Validate(msg, 1)
    ensures var padded := "a         ";
            Message !in Validate(padded, 1) && LearnerCourseDetails.ValidateMessage(padded) != []
  {
    TrimEmpty(msg);
    TrimUtf16Length(msg);
    var padded := "a         ";
    assert !AllSpace(padded) by { assert !IsSpace(padded[0]); }
    PaddedTrimsShort();
  }

  /** Trimming "a" followed by nine spaces leaves one character. */
  lemma PaddedTrimsShort()
    ensures Utf16Length(Trim("a         ")) < 10
  {
    var padded := "a         ";
    assert TrimStart(padded) == padded;
    var r := TrimEnd(padded);
    TrimEndShape(padded);
    assert r != [] ==> !IsSpace(padded[|r| - 1]);
    assert forall k :: 1 <= k < |padded| ==> IsSpace(padded[k]);
  }

  class Editor {
    var feedbackMsg: string
    var feedbackRating: int
    var touchedMessage: bool
    var touchedRating: bool
    var fieldErrors: map<Field, string>
    var feedbackSuccess: string

    constructor()
      ensures feedbackMsg == [] && feedbackRating == 0 && !touchedMessage && !touchedRating
      ensures fieldErrors == Cleared && feedbackSuccess == []
    {
      feedbackMsg, feedbackRating := [], 0;
      touchedMessage, touchedRating := false, false;
      fieldErrors, feedbackSuccess := Cleared, [];
    }

    method ChangeMessage(value: string)
      modifies this`feedbackMsg
      ensures feedbackMsg == value
    {
      feedbackMsg := value;
    }

    /** Leaving a field: it becomes touched and the whole form is validated. */
    method Blur(field: Field)
      modifies this`touchedMessage, this`touchedRating, this`fieldErrors
      ensures touchedMessage == (old(touchedMessage) || field == Message)
      ensures touchedRating == (old(touchedRating) || field == Rating)
      ensures fieldErrors == Validate(feedbackMsg, feedbackRating)
    {
      if field == Message { touchedMessage := true; } else { touchedRating := true; }
      fieldErrors := Validate(feedbackMsg, feedbackRating);
    }

    /** A click on star `n`: the rating becomes `n`; once the rating is touched, its error key goes and nothing else. */
    method ClickStar(n: int)
      requires 1 <= n <= 5
      modifies this`feedbackRating, this`fieldErrors
      ensures feedbackRating == n
      ensures fieldErrors == if touchedRating then old(fieldErrors) - {Rating} else old(fieldErrors)
      ensures Rating !in fieldErrors || !touchedRating
      ensures forall k :: k != Rating && k in old(fieldErrors) ==> k in fieldErrors && fieldErrors[k] == old(fieldErrors)[k]
    {
      feedbackRating := n;
      if touchedRating {
        fieldErrors := fieldErrors - {Rating};
      }
    }

    /**
     * `handleSubmit` with the server's answer (`None` when the post
     * fails): an invalid form sends nothing; on success the created
     * feedback goes to the parent and the form resets; on failure only
     * the status changes.
     */
    method Submit(reply: Option<Feedback>) returns (sent: bool, delivered: Option<Feedback>)
      modifies this`feedbackMsg, this`feedbackRating, this`touchedMessage, this`touchedRating,
               this`fieldErrors, this`feedbackSuccess
      ensures sent <==> Validate(old(feedbackMsg), old(feedbackRating)) == map[]
      ensures !sent ==>
        delivered.None? && touchedMessage && touchedRating && feedbackSuccess == [] &&
        fieldErrors == Validate(old(feedbackMsg), old(feedbackRating)) &&
        feedbackMsg == old(feedbackMsg) && feedbackRating == old(feedbackRating)
      ensures sent && reply.Some? ==>
        delivered == reply &&
        feedbackMsg == [] && feedbackRating == 0 && !touchedMessage && !touchedRating &&
        fieldErrors == Cleared && feedbackSuccess == Submitted
      ensures sent && reply.None? ==>
        delivered.None? &&
        feedbackSuccess == SubmitFailed && feedbackMsg == old(feedbackMsg) && feedbackRating == old(feedbackRating) &&
        touchedMessage && touchedRating && fieldErrors == map[]
    {
      feedbackSuccess := [];
      touchedMessage, touchedRating := true, true;
      fieldErrors := Validate(feedbackMsg, feedbackRating);
      delivered := None;
      if fieldErrors != map[] {
        return false, None;
      }
      sent := true;
      if reply.Some? {
        delivered := reply;
        feedbackMsg, feedbackRating := [], 0;
        touchedMessage, touchedRating := false, false;
        fieldErrors := Cleared;
        feedbackSuccess := Submitted;
      } else {
        feedbackSuccess := SubmitFailed;
      }
    }
  }
}
