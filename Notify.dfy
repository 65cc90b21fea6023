/** `run()` (src/main.ts): the steps from the action's inputs to the card posted to the
    webhook and the failures reported. Reading inputs and environment variables, the
    commit request, the clock and the HTTP post are outside the model; their results are
    parameters. */
module Notify {
  import opened Results
  import opened Strings
  import opened Facts
  import opened RunInputs
  import opened EventLinks
  import opened MessageCard
  import opened Delivery

  /** The run's context, as read from the environment and the event file. */
  datatype Environment = Environment(
    eventName: Option<string>,    // unset event name is `None`
    repository: string,           // "owner/repo", "" when unset
    sha: string,
    runId: string,
    runNum: string,
    issueNumber: nat,             // the issue or pull request number of the event
    reviewHref: Option<string>)   // the review link; `None` when reading it throws (see `DeriveLinks`)

  /** What the commit request returns: the linked author, if any, and the commit. */
  datatype CommitData = CommitData(author: Option<Author>, commit: Commit)

  /** The run needs the review link and reading it throws. */
  predicate ReviewUnreadable(raw: RawInputs, env: Environment) {
    && LinksWanted(env.eventName, raw.viewPullRequest != "")
    && env.eventName == Some(PullRequestReview)
    && env.reviewHref.None?
  }

  /** The record `run()` hands to `createMessageCard` once the commit request has answered:
      the options after defaults, the fact list, the pull number and review link when
      pull-request links are wanted, and the repository name and URL. */
  function CardInputOf(raw: RawInputs, customFacts: string, parsedFacts: Parsed, env: Environment,
                       timestamp: string, data: CommitData): (o: CardInput)
    ensures o.author == data.author && o.commit == data.commit
    ensures o.pullNumber != "" <==> LinksWanted(env.eventName, raw.viewPullRequest != "")
    ensures o.pullNumber != "" ==> IsDecimal(o.pullNumber) && DecimalValue(o.pullNumber) == env.issueNumber
    ensures o.pullReview ==
      if LinksWanted(env.eventName, raw.viewPullRequest != "") && env.eventName == Some(PullRequestReview)
         && env.reviewHref.Some?
      then env.reviewHref.value else ""
    ensures |o.factsObj| > 0 && o.factsObj[0] == EventFact(env.eventName)
  {
    var options := ResolveOptions(raw);
    var wanted := LinksWanted(env.eventName, options.viewPullRequest);
    var review := wanted && env.eventName == Some(PullRequestReview);
    DecimalRoundTrip(env.issueNumber);
    CardInput(data.author, data.commit, options.description,
      FactList(env.eventName, customFacts, parsedFacts),
      options.notificationSummary, options.notificationColor,
      if wanted then NatToDecimal(env.issueNumber) else "",
      if review && env.reviewHref.Some? then env.reviewHref.value else "",
      RepoName(env.repository), RepoUrl(env.repository), env.runId, env.runNum, env.sha, timestamp,
      options.viewChanges, options.viewPullRequest, options.viewWorkflowRun)
  }

  /** The steps of `run()` before the card is built: the fact list, the options, the links
      (reading the review link can throw), the repository name and URL, and the commit
      request (which can fail). The record gathered is the one `CardInputOf` describes. */
  method GatherCardInput(raw: RawInputs, customFacts: string, parsedFacts: Parsed, env: Environment,
                         timestamp: string, lookup: Result<CommitData, string>)
    returns (r: Result<CardInput, Exception>)
    ensures r.Failure? <==> ReviewUnreadable(raw, env) || lookup.Failure?
    ensures r.Failure? ==>
      r.error == if ReviewUnreadable(raw, env) then EventPayloadUnreadable else CommitLookupFailed(lookup.error)
    ensures r.Success? ==> r.value == CardInputOf(raw, customFacts, parsedFacts, env, timestamp, lookup.value)
  {
    var facts, _ := BuildFacts(env.eventName, customFacts, parsedFacts);
    var options := ResolveOptions(raw);
    var links := DeriveLinks(env.eventName, options.viewPullRequest, env.issueNumber, env.reviewHref);
    if links.Failure? {
      return Failure(links.error);
    }
    var repoName := RepoName(env.repository);
    var repoUrl := RepoUrl(env.repository);
    if lookup.Failure? {
      return Failure(CommitLookupFailed(lookup.error));
    }
    var input := CardInput(lookup.value.author, lookup.value.commit, options.description, facts,
      options.notificationSummary, options.notificationColor, links.value.pullNumber,
      links.value.pullReview, repoName, repoUrl, env.runId, env.runNum, env.sha, timestamp,
      options.viewChanges, options.viewPullRequest, options.viewWorkflowRun);
    return Success(input);
  }

  /** Runs the steps in the source's order. An exception at the review-link read, the
      commit request or the card assembly stops the run before anything is posted and is
      the only failure reported; otherwise the card built from `CardInputOf` is posted and
      the delivery outcome is classified. */
  method Run(raw: RawInputs, customFacts: string, parsedFacts: Parsed, env: Environment,
             timestamp: string, lookup: Result<CommitData, string>, delivery: Outcome)
    returns (posted: Option<Card>, failures: seq<Report>)
    ensures ReviewUnreadable(raw, env) ==>
      posted.None? && failures == [Uncaught(EventPayloadUnreadable)]
    ensures !ReviewUnreadable(raw, env) && lookup.Failure? ==>
      posted.None? && failures == [Uncaught(CommitLookupFailed(lookup.error))]
    ensures !ReviewUnreadable(raw, env) && lookup.Success? && lookup.value.commit.authorName.None? ==>
      posted.None? && failures == [Uncaught(CommitAuthorMissing)]
    ensures (!ReviewUnreadable(raw, env) && lookup.Success? && lookup.value.commit.authorName.Some?
             && lookup.value.author.None?) ==>
      posted.None? && failures == [Uncaught(AuthorMissing)]
    ensures posted.Some? <==>
      !ReviewUnreadable(raw, env) && lookup.Success? && lookup.value.commit.authorName.Some? && lookup.value.author.Some?
    ensures posted.Some? ==>
      var o := CardInputOf(raw, customFacts, parsedFacts, env, timestamp, lookup.value);
      var card := posted.value;
      && failures == DeliveryFailures(delivery)
      && CardFor(o, card)
      && card.potentialAction == PushedActions(o)
  {
    var input := GatherCardInput(raw, customFacts, parsedFacts, env, timestamp, lookup);
    if input.Failure? {
      return None, [Uncaught(input.error)];
    }
    var card := CreateMessageCard(input.value);
    if card.Failure? {
      return None, [Uncaught(card.error)];
    }
    ActionsForUnique(input.value, card.value.potentialAction);
    return Some(card.value), DeliveryFailures(delivery);
  }

  /** What a posted card shows, in terms of the action's inputs and the event: the facts
      `FactList` builds, the repository title, and each button kind exactly when its input
      is non-empty (for the pull-request button, also when the event passes the test). */
  lemma PostedCardShows(raw: RawInputs, customFacts: string, parsedFacts: Parsed, env: Environment,
                        timestamp: string, data: CommitData, card: Card)
    requires data.author.Some? && data.commit.authorName.Some?
    requires CardFor(CardInputOf(raw, customFacts, parsedFacts, env, timestamp, data), card)
    ensures card.sections[0].facts == FactList(env.eventName, customFacts, parsedFacts)
    ensures card.sections[0].activityTitle ==
      ActivityTitle(env.runNum, env.sha, RepoName(env.repository), RepoUrl(env.repository))
    ensures card.summary == card.title == OrDefault(raw.notificationSummary, DefaultSummary)
    ensures card.themeColor == OrDefault(raw.notificationColor, DefaultColor)
    ensures HasButtonNamed(card.potentialAction, CommitChangesName) <==> raw.viewCommitChanges != ""
    ensures HasButtonNamed(card.potentialAction, WorkflowRunName) <==> raw.viewWorkflowRun != ""
    ensures HasButtonNamed(card.potentialAction, PullRequestName) || HasButtonNamed(card.potentialAction, ReviewName)
      <==> LinksWanted(env.eventName, raw.viewPullRequest != "")
  {
    var o := CardInputOf(raw, customFacts, parsedFacts, env, timestamp, data);
    ButtonNames(o, card.potentialAction);
  }
}
