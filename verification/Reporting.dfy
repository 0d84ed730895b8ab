// Posting to the LMS (submission_queue/consumer.py): up to five attempts,
// stopping at the first that succeeds.  What the LMS answers to each attempt
// is an input.
module Reporting {
  const MAX_ATTEMPTS := 5

  /** The LMS's answers to the first, second, ... attempt of one report, if they are made. */
  type Attempts = p: seq<bool> | |p| == MAX_ATTEMPTS witness [false, false, false, false, false]

  datatype Post = Post(header: string, body: string, ok: bool)

  const FAILURE_MESSAGE :=
    "{\"correct\": null, \"score\": 0, \"msg\": \"<div class=\\\"capa_alert\\\">"
    + "Your submission could not be graded. Please recheck your submission and try again. "
    + "If the problem persists, please notify the course staff.</div>\"}"

  /** It tells the LMS that nothing was graded: no verdict, and no points. */
  lemma FailureGradesNothing()
    ensures "{\"correct\": null, \"score\": 0, \"msg\": \"" <= FAILURE_MESSAGE
  {
  }

  /** The posts one report makes: everything up to and including the first success. */
  function Posts(header: string, body: string, answers: seq<bool>): seq<Post> {
    if answers == [] then []
    else [Post(header, body, answers[0])] + (if answers[0] then [] else Posts(header, body, answers[1..]))
  }

  predicate Delivered(answers: seq<bool>) {
    true in answers
  }

  function Successes(log: seq<Post>): nat {
    if log == [] then 0 else Successes(log[..|log| - 1]) + (if log[|log| - 1].ok then 1 else 0)
  }

  /** The budget of one report: one to five posts, all alike, and a success only as the last. */
  lemma {:induction false} PostsBudget(header: string, body: string, answers: seq<bool>)
    requires answers != []
    ensures var made := Posts(header, body, answers);
            1 <= |made| <= |answers|
            && (forall i | 0 <= i < |made| :: made[i].header == header && made[i].body == body)
            && (forall i | 0 <= i < |made| - 1 :: !made[i].ok)
            && (made[|made| - 1].ok <==> Delivered(answers))
            && (!Delivered(answers) ==> |made| == |answers|)
  {
    if !answers[0] && |answers| > 1 {
      PostsBudget(header, body, answers[1..]);
    }
  }

  /** Each post is one attempt, with its answer. */
  lemma {:induction false} PostsAreAttempts(header: string, body: string, answers: seq<bool>)
    ensures |Posts(header, body, answers)| <= |answers|
    ensures forall i | 0 <= i < |Posts(header, body, answers)| :: Posts(header, body, answers)[i].ok == answers[i]
  {
    if answers != [] { PostsAreAttempts(header, body, answers[1..]); }
  }

  lemma {:induction false} SuccessesAppend(log: seq<Post>, more: seq<Post>)
    ensures Successes(log + more) == Successes(log) + Successes(more)
  {
    if more == [] {
      assert log + more == log;
    } else {
      SuccessesAppend(log, more[..|more| - 1]);
      assert (log + more)[..|log + more| - 1] == log + more[..|more| - 1];
    }
  }

  /** At most one of a report's posts succeeds. */
  lemma {:induction false} PostsSucceedOnce(header: string, body: string, answers: seq<bool>)
    ensures Successes(Posts(header, body, answers)) == (if Delivered(answers) then 1 else 0)
  {
    if answers != [] {
      var first := [Post(header, body, answers[0])];
      assert first[..0] == [];
      if !answers[0] {
        PostsSucceedOnce(header, body, answers[1..]);
        SuccessesAppend(first, Posts(header, body, answers[1..]));
      } else {
        assert first + [] == first;
      }
    }
  }
}
