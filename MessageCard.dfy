/** `createMessageCard` (src/message-card.ts): the Teams "MessageCard" built from the run's
    options, the commit data and the fact list. */
module MessageCard {
  import opened Results
  import opened Strings
  import opened Facts

  /** The commit's linked GitHub user; `avatarUrl` is `None` when the property is unset. */
  datatype Author = Author(login: string, avatarUrl: Option<string>, htmlUrl: string)

  /** The parts of the commit response the card uses: the commit page and the git author's
      name; `authorName` is `None` when the response's git author record is null. */
  datatype Commit = Commit(htmlUrl: string, authorName: Option<string>)

  /** The record `run()` passes in. `author` is `None` when the commit has no linked user. */
  datatype CardInput = CardInput(
    author: Option<Author>,
    commit: Commit,
    description: string,
    factsObj: seq<Fact>,
    notificationSummary: string,
    notificationColor: string,
    pullNumber: string,
    pullReview: string,
    repoName: string,
    repoUrl: string,
    runId: string,
    runNum: string,
    sha: string,
    timestamp: string,
    viewChanges: bool,
    viewPullRequest: bool,
    viewWorkflowRun: bool)

  /** A link button of the card. */
  datatype ViewAction = ViewAction(context: string, actionType: string, name: string, target: seq<string>)

  datatype Section = Section(activityTitle: string, activityImage: string, activitySubtitle: string, facts: seq<Fact>)

  datatype Card = Card(
    cardType: string,
    context: string,
    summary: string,
    themeColor: string,
    title: string,
    text: string,
    sections: seq<Section>,
    potentialAction: seq<ViewAction>)

  const DefaultAvatar := "https://www.gravatar.com/avatar/05b6d8cc7c662bf81e01b39254f88a48?d=identicon"
  const ActionContext := "http://schema.org"
  const CommitChangesName := "View Commit Changes"
  const WorkflowRunName := "View Workflow Run"
  const PullRequestName := "View Pull Request"
  const ReviewName := "View Review"

  function CommitChangesAction(o: CardInput): (a: ViewAction) {
    ViewAction(ActionContext, "ViewAction", CommitChangesName, [o.commit.htmlUrl])
  }

  function WorkflowRunAction(o: CardInput): (a: ViewAction) {
    ViewAction(ActionContext, "ViewAction", WorkflowRunName, [o.repoUrl + "/actions/runs/" + o.runId])
  }

  /** The pull-request button: the review link when there is one, else the pull request page. */
  function PullRequestAction(o: CardInput): (a: ViewAction)
    ensures a.name == ReviewName <==> o.pullReview != ""
    ensures a.name == PullRequestName <==> o.pullReview == ""
    ensures a.target == if o.pullReview != "" then [o.pullReview] else [o.repoUrl + "/pull/" + o.pullNumber]
  {
    if o.pullReview != "" then ViewAction(ActionContext, "ViewAction", ReviewName, [o.pullReview])
    else ViewAction(ActionContext, "ViewAction", PullRequestName, [o.repoUrl + "/pull/" + o.pullNumber])
  }

  /** The pull-request button is shown when wanted and a pull number is known. */
  predicate ShowsPullRequest(o: CardInput) {
    o.viewPullRequest && o.pullNumber != ""
  }

  /** Position of a button kind in the fixed order commit, workflow run, pull request. */
  function ActionRank(a: ViewAction): (rank: nat) {
    if a.name == CommitChangesName then 0 else if a.name == WorkflowRunName then 1 else 2
  }

  /** The buttons for `o`: each of the three appears exactly when its option asks for it,
      nothing else appears, and they come in the fixed order. */
  ghost predicate ActionsFor(o: CardInput, acts: seq<ViewAction>) {
    && (forall a | a in acts :: a == CommitChangesAction(o) || a == WorkflowRunAction(o) || a == PullRequestAction(o))
    && (CommitChangesAction(o) in acts <==> o.viewChanges)
    && (WorkflowRunAction(o) in acts <==> o.viewWorkflowRun)
    && (PullRequestAction(o) in acts <==> ShowsPullRequest(o))
    && (forall i, j | 0 <= i < j < |acts| :: ActionRank(acts[i]) < ActionRank(acts[j]))
  }

  /** Pushes the buttons in order under the three guards. */
  method BuildPotentialActions(o: CardInput) returns (acts: seq<ViewAction>)
    ensures ActionsFor(o, acts)
  {
    acts := [];
    if o.viewChanges {
      acts := acts + [CommitChangesAction(o)];
    }
    if o.viewWorkflowRun {
      acts := acts + [WorkflowRunAction(o)];
    }
    if o.viewPullRequest && o.pullNumber != "" {
      var name := PullRequestName;
      var target := [o.repoUrl + "/pull/" + o.pullNumber];
      if o.pullReview != "" {
        name := ReviewName;
        target := [o.pullReview];
      }
      acts := acts + [ViewAction(ActionContext, "ViewAction", name, target)];
    }
  }

  /** In a list ordered by strictly increasing rank, a button's rank is at least its index. */
  lemma {:induction false} RankAtLeastIndex(o: CardInput, acts: seq<ViewAction>, i: nat)
    requires ActionsFor(o, acts) && i < |acts|
    ensures ActionRank(acts[i]) >= i
  {
    if i > 0 {
      RankAtLeastIndex(o, acts, i - 1);
      assert ActionRank(acts[i - 1]) < ActionRank(acts[i]);
    }
  }

  /** At most three buttons, at most one of the pull-request kind, and that one last. */
  lemma ActionsForShape(o: CardInput, acts: seq<ViewAction>)
    requires ActionsFor(o, acts)
    ensures |acts| <= 3
    ensures forall i, j | 0 <= i < j < |acts| :: !(ActionRank(acts[i]) == 2 && ActionRank(acts[j]) == 2)
    ensures ShowsPullRequest(o) ==> acts[|acts| - 1] == PullRequestAction(o)
  {
    if acts != [] {
      RankAtLeastIndex(o, acts, |acts| - 1);
    }
    if ShowsPullRequest(o) {
      var k :| 0 <= k < |acts| && acts[k] == PullRequestAction(o);
      assert ActionRank(acts[k]) == 2 && ActionRank(acts[|acts| - 1]) <= 2;
      assert k == |acts| - 1;
    }
  }

  /** The list the three guarded pushes produce, as a reference definition. */
  function PushedActions(o: CardInput): (acts: seq<ViewAction>) {
    (if o.viewChanges then [CommitChangesAction(o)] else [])
      + (if o.viewWorkflowRun then [WorkflowRunAction(o)] else [])
      + (if ShowsPullRequest(o) then [PullRequestAction(o)] else [])
  }

  /** `ActionsFor` pins the button list down completely: it is the pushed list. */
  lemma ActionsForUnique(o: CardInput, acts: seq<ViewAction>)
    requires ActionsFor(o, acts)
    ensures acts == PushedActions(o)
  {
    ActionsForShape(o, acts);
    assert ActionRank(CommitChangesAction(o)) == 0;
    assert ActionRank(WorkflowRunAction(o)) == 1;
    assert ActionRank(PullRequestAction(o)) == 2;
    if |acts| == 1 {
      PushedOne(o, acts);
    } else if |acts| == 2 {
      PushedTwo(o, acts);
    } else if |acts| == 3 {
      PushedThree(o, acts);
    }
  }

  lemma PushedOne(o: CardInput, acts: seq<ViewAction>)
    requires ActionsFor(o, acts) && |acts| == 1
    requires ActionRank(CommitChangesAction(o)) == 0 && ActionRank(WorkflowRunAction(o)) == 1
    requires ActionRank(PullRequestAction(o)) == 2
    ensures acts == PushedActions(o)
  {
    var c, w, p := CommitChangesAction(o), WorkflowRunAction(o), PullRequestAction(o);
    assert acts == [acts[0]];
    assert acts[0] in acts;
    assert c in acts <==> c == acts[0];
    assert w in acts <==> w == acts[0];
    assert p in acts <==> p == acts[0];
  }

  lemma PushedTwo(o: CardInput, acts: seq<ViewAction>)
    requires ActionsFor(o, acts) && |acts| == 2
    requires ActionRank(CommitChangesAction(o)) == 0 && ActionRank(WorkflowRunAction(o)) == 1
    requires ActionRank(PullRequestAction(o)) == 2
    ensures acts == PushedActions(o)
  {
    var c, w, p := CommitChangesAction(o), WorkflowRunAction(o), PullRequestAction(o);
    assert acts == [acts[0], acts[1]];
    assert acts[0] in acts && acts[1] in acts;
    assert ActionRank(acts[0]) < ActionRank(acts[1]);
    if acts[0] == c {
      if acts[1] == w {
        assert p !in acts;
      } else {
        assert acts[1] == p && w !in acts;
      }
    } else {
      assert acts[0] == w && acts[1] == p;
      assert c !in acts;
    }
  }

  lemma PushedThree(o: CardInput, acts: seq<ViewAction>)
    requires ActionsFor(o, acts) && |acts| == 3
    requires ActionRank(CommitChangesAction(o)) == 0 && ActionRank(WorkflowRunAction(o)) == 1
    requires ActionRank(PullRequestAction(o)) == 2
    ensures acts == PushedActions(o)
  {
    assert acts == [acts[0], acts[1], acts[2]];
    assert acts[0] in acts && acts[1] in acts && acts[2] in acts;
    assert ActionRank(acts[0]) < ActionRank(acts[1]) < ActionRank(acts[2]);
  }

  /** With only the workflow-run option set, the card has exactly the workflow-run button. */
  lemma WorkflowRunOnly(o: CardInput, acts: seq<ViewAction>)
    requires ActionsFor(o, acts)
    requires !o.viewChanges && o.viewWorkflowRun && !o.viewPullRequest
    ensures acts == [ViewAction(ActionContext, "ViewAction", WorkflowRunName, [o.repoUrl + "/actions/runs/" + o.runId])]
  {
    ActionsForUnique(o, acts);
  }

  predicate HasButtonNamed(acts: seq<ViewAction>, name: string) {
    exists a | a in acts :: a.name == name
  }

  /** Which button names a list described by `ActionsFor` carries. */
  lemma ButtonNames(o: CardInput, acts: seq<ViewAction>)
    requires ActionsFor(o, acts)
    ensures HasButtonNamed(acts, CommitChangesName) <==> o.viewChanges
    ensures HasButtonNamed(acts, WorkflowRunName) <==> o.viewWorkflowRun
    ensures HasButtonNamed(acts, PullRequestName) || HasButtonNamed(acts, ReviewName) <==> ShowsPullRequest(o)
  {
  }

  /** `sha.substring(0, 7)`: the first seven characters, or the whole text when shorter. */
  function ShortSha(sha: string): (r: string)
    ensures |r| == if |sha| < 7 then |sha| else 7
    ensures StartsWith(sha, r)
  {
    if |sha| < 7 then sha else sha[..7]
  }

  function ActivityTitle(runNum: string, sha: string, repoName: string, repoUrl: string): (title: string) {
    "**CI #" + runNum + " (commit " + ShortSha(sha) + ")** on [" + repoName + "](" + repoUrl + ")"
  }

  /** The author's avatar when set and non-empty, else the fixed placeholder; never empty. */
  function ActivityImage(author: Option<Author>): (image: string)
    ensures image != ""
    ensures image == DefaultAvatar <==>
      author.None? || author.value.avatarUrl.None? || author.value.avatarUrl.value in {"", DefaultAvatar}
    ensures image != DefaultAvatar ==> author.Some? && author.value.avatarUrl == Some(image)
  {
    if author.Some? && author.value.avatarUrl.Some? && author.value.avatarUrl.value != "" then author.value.avatarUrl.value
    else DefaultAvatar
  }

  /** The subtitle template; its second and third lines keep the template literal's
      line breaks and ten-space indentation. */
  function ActivitySubtitle(authorName: string, author: Author, timestamp: string): (subtitle: string) {
    "by " + authorName + "\n          [(@" + author.login + ")](" + author.htmlUrl + ")\n          on " + timestamp
  }

  /** The card built from `o`: summary, title, colour, text and facts are copied through,
      the one section carries the title, image and subtitle, and the buttons are those
      `ActionsFor` describes (an empty list stays in the card). */
  ghost predicate CardFor(o: CardInput, card: Card)
    requires o.author.Some? && o.commit.authorName.Some?
  {
    && card.cardType == "MessageCard"
    && card.context == "https://schema.org/extensions"
    && card.summary == o.notificationSummary
    && card.title == o.notificationSummary
    && card.themeColor == o.notificationColor
    && card.text == o.description
    && |card.sections| == 1
    && card.sections[0].activityTitle == ActivityTitle(o.runNum, o.sha, o.repoName, o.repoUrl)
    && card.sections[0].activityImage == ActivityImage(o.author)
    && card.sections[0].activitySubtitle == ActivitySubtitle(o.commit.authorName.value, o.author.value, o.timestamp)
    && card.sections[0].facts == o.factsObj
    && ActionsFor(o, card.potentialAction)
  }

  /** Builds the card. The subtitle template reads the git author's name first, which
      throws when the commit has no git author record, and then the linked author's login,
      which throws when the commit has no linked author; otherwise the card is `CardFor(o)`. */
  method CreateMessageCard(o: CardInput) returns (r: Result<Card, Exception>)
    ensures r.Failure? <==> o.commit.authorName.None? || o.author.None?
    ensures r.Failure? ==> r.error == if o.commit.authorName.None? then CommitAuthorMissing else AuthorMissing
    ensures r.Success? ==> CardFor(o, r.value)
  {
    var potentialAction := BuildPotentialActions(o);
    var avatarUrl := ActivityImage(o.author);
    if o.commit.authorName.None? {
      return Failure(CommitAuthorMissing);
    }
    if o.author.None? {
      return Failure(AuthorMissing);
    }
    var section := Section(
      ActivityTitle(o.runNum, o.sha, o.repoName, o.repoUrl),
      avatarUrl,
      ActivitySubtitle(o.commit.authorName.value, o.author.value, o.timestamp),
      o.factsObj);
    var card := Card("MessageCard", "https://schema.org/extensions", o.notificationSummary,
      o.notificationColor, o.notificationSummary, o.description, [section], potentialAction);
    if |potentialAction| > 0 {
      card := card.(potentialAction := potentialAction);
    }
    return Success(card);
  }
}
