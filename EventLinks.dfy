/** The pull-request and review links `run()` (src/main.ts) derives from the event name. */
module EventLinks {
  import opened Results
  import opened Strings

  /** Characters the regular-expression `.` does not match. */
  predicate IsLineTerminator(c: char) {
    c == '\n' || c == '\r' || c == '\U{2028}' || c == '\U{2029}'
  }

  predicate WordAt(s: string, k: int) {
    0 <= k < |s| && IsWordChar(s[k])
  }

  /** `\b` holds at position `k` (between `s[k - 1]` and `s[k]`). */
  predicate Boundary(s: string, k: int) {
    WordAt(s, k - 1) != WordAt(s, k)
  }

  predicate LiteralAt(s: string, i: nat, lit: string) {
    i + |lit| <= |s| && s[i..i + |lit|] == lit
  }

  /** `\b` `lit` `.*` `\b` matches starting at `i`. */
  predicate MatchAt(s: string, i: nat, lit: string)
    requires i <= |s|
  {
    && Boundary(s, i)
    && LiteralAt(s, i, lit)
    && exists j | i + |lit| <= j <= |s| ::
         Boundary(s, j) && forall k | i + |lit| <= k < j :: !IsLineTerminator(s[k])
  }

  /** The test `/\b(?:issue.*|pull.*)\b/` finds a match somewhere in `s`. */
  predicate IsIssueOrPullEvent(s: string) {
    exists i | 0 <= i <= |s| :: MatchAt(s, i, "issue") || MatchAt(s, i, "pull")
  }

  /** For a name made of word characters only (as GitHub's event names are), the test is
      "starts with issue or pull". */
  lemma WordEventNameMatch(s: string)
    requires forall k | 0 <= k < |s| :: IsWordChar(s[k])
    ensures IsIssueOrPullEvent(s) <==> StartsWith(s, "issue") || StartsWith(s, "pull")
  {
    if StartsWith(s, "issue") || StartsWith(s, "pull") {
      var lit := if StartsWith(s, "issue") then "issue" else "pull";
      assert Boundary(s, 0);
      assert Boundary(s, |s|);
      assert MatchAt(s, 0, lit);
    }
    if IsIssueOrPullEvent(s) {
      var i :| 0 <= i <= |s| && (MatchAt(s, i, "issue") || MatchAt(s, i, "pull"));
      assert WordAt(s, i);
      assert !WordAt(s, i - 1);
      assert i == 0;
    }
  }

  const PullRequestReview := "pull_request_review"

  lemma ReviewEventIsPullEvent()
    ensures IsIssueOrPullEvent(PullRequestReview)
  {
    WordEventNameMatch(PullRequestReview);
    assert PullRequestReview[..4] == "pull";
  }

  /** `pullNumber` and `pullReview`; "" means unset. */
  datatype Links = Links(pullNumber: string, pullReview: string)

  /** The guard around the link derivation. */
  predicate LinksWanted(eventName: Option<string>, viewPullRequest: bool) {
    eventName.Some? && IsIssueOrPullEvent(eventName.value) && viewPullRequest
  }

  /** Sets the pull number from the event's issue number when the event is issue- or
      pull-related and pull-request links are wanted; for a review event it also reads the
      review link from the event payload. `reviewHref` is `None` exactly when that read
      throws: the event file did not load, or its payload has no `review._links.html`. */
  method DeriveLinks(eventName: Option<string>, viewPullRequest: bool, issueNumber: nat,
                     reviewHref: Option<string>)
    returns (r: Result<Links, Exception>)
    ensures var wanted := LinksWanted(eventName, viewPullRequest);
      var review := wanted && eventName == Some(PullRequestReview);
      && (r.Failure? <==> review && reviewHref.None?)
      && (r.Failure? ==> r.error == EventPayloadUnreadable)
      && (r.Success? ==>
            && (r.value.pullNumber != "" <==> wanted)
            && (wanted ==> r.value.pullNumber == NatToDecimal(issueNumber))
            && (wanted ==> IsDecimal(r.value.pullNumber) && DecimalValue(r.value.pullNumber) == issueNumber)
            && (r.value.pullReview == if review then reviewHref.value else ""))
  {
    var pullNumber := "";
    var pullReview := "";
    if eventName.Some? && IsIssueOrPullEvent(eventName.value) && viewPullRequest {
      pullNumber := NatToDecimal(issueNumber);
      DecimalRoundTrip(issueNumber);
      if eventName.value == PullRequestReview {
        if reviewHref.None? {
          return Failure(EventPayloadUnreadable);
        }
        pullReview := reviewHref.value;
      }
    }
    return Success(Links(pullNumber, pullReview));
  }
}
