# ms-teams-notification, modelled in Dafny

A GitHub Action that posts a Microsoft Teams "MessageCard" about a CI run. The action reads
its inputs and the run's environment, builds a fact table (the event type plus the user's
custom facts), works out pull-request and review links from the event, fetches the commit,
assembles the card (title, colour, text, one section with activity title, image, subtitle
and facts, and up to three link buttons) and posts it to the webhook, reporting failures
with `setFailed`.

This project models the decision-making part of that in Dafny:

- `MessageCard.dfy` — `createMessageCard`: the button list is built by guarded pushes
  (`BuildPotentialActions`) and specified by `ActionsFor`. `ActionsFor` says each button
  appears exactly when its option asks for it, and the buttons come in the fixed order.
  Lemmas show that this determines the list, that it has at most three buttons, and that
  there is at most one pull-request button and it comes last. `CreateMessageCard` states
  every field of the card (through `CardFor`), and the exceptions thrown when the commit
  has no git author record or no linked GitHub user.
- `Facts.dfy` — the fact list built in `run()`: a loop (`BuildFacts`) proved against the
  specification function `FactList`, with lemmas on input order, one fact per complete
  record, the label and value format, and the swallowed error cases.
- `RunInputs.dfy` — option defaults and view flags; repository name and URL.
- `EventLinks.dfy` — the event-name test `\b(?:issue.*|pull.*)\b` modelled with its word
  boundaries and its `.`, and proved equal to "starts with issue or pull" for names made of
  word characters; the derivation of `pullNumber` and `pullReview`.
- `Delivery.dfy` — the failure reports for the webhook's response.
- `Markdown.dfy` — `escapeMarkdownTokens`, which the action defines but does not call.
- `Notify.dfy` — `run()` as a whole, with the environment, the commit request, the clock and
  the webhook's answer as parameters.
- `Strings.dfy`, `Results.dfy` — JavaScript string built-ins on ASCII, and option/result
  types.

Where the code and a plain reading of the action's documented behaviour differ, the model
follows the code:

- Reading the review link of a `pull_request_review` event throws when the event file
  failed to load, or when its payload has no `review._links.html`. The error reaches the
  top-level handler and fails the run; it is not skipped.
- Only the statuses 200, 400, 429, 412, 502 and 504 are admitted. Any other status rejects
  the request, and the rejection handler only logs it, so the run does not fail. For the
  admitted statuses, the "outside acceptable response codes" report fires for every status
  except 200.
- A post that gets no response at all makes the rejection handler read `status` of a missing
  response. That throws, and the top-level handler reports it.
- The button list is always part of the card, even when empty.
- A `null` element in the custom-facts list throws inside the loop. The error is swallowed,
  and the facts pushed before that element stay in the list.
- A commit whose git author record is `null`, or without a linked GitHub user, makes the
  subtitle template throw, and the run fails. The git author's name is read first, so a
  commit lacking both reports the missing git author.

## Model

| member | source | states |
|---|---|---|
| `MessageCard.BuildPotentialActions` | src/message-card.ts:2-42 | the pushed buttons satisfy `ActionsFor`: the commit button iff `viewChanges`, the workflow-run button iff `viewWorkflowRun`, the pull-request button iff `viewPullRequest` and a non-empty pull number, nothing else, in that fixed order |
| `MessageCard.CommitChangesAction` | src/message-card.ts:8-15 | the commit button: "View Commit Changes" targeting the commit page; its presence and place are specified by `ActionsFor` and `ActionsForUnique` |
| `MessageCard.WorkflowRunAction` | src/message-card.ts:17-26 | the workflow-run button: "View Workflow Run" targeting `repoUrl + "/actions/runs/" + runId`; specified by `ActionsFor` and `WorkflowRunOnly` |
| `MessageCard.PullRequestAction` | src/message-card.ts:28-35 | the button is named "View Review" and targets the review link exactly when a review link is set; otherwise it is "View Pull Request" targeting `repoUrl/pull/<number>` |
| `MessageCard.ActionsForShape` | src/message-card.ts:8-42 | at most three buttons, never two of the pull-request kind, and a pull-request button is the last one |
| `MessageCard.ActionsForUnique` | src/message-card.ts:8-42 | any list meeting `ActionsFor` equals the list of the three guarded pushes, so the options determine the buttons |
| `MessageCard.WorkflowRunOnly` | src/message-card.ts:17-26 | with only the workflow-run option, the card's single button targets `repoUrl + "/actions/runs/" + runId` |
| `MessageCard.ShortSha` | src/message-card.ts:55 | the sha fragment is the first min(7, length) characters of the sha, so a short sha is used whole |
| `MessageCard.ActivityTitle` | src/message-card.ts:53-57 | the title template `**CI #<runNum> (commit <ShortSha(sha)>)** on [<repoName>](<repoUrl>)`; its sha fragment is specified by `ShortSha`, and `PostedCardShows` ties its arguments to the run's environment |
| `MessageCard.ActivitySubtitle` | src/message-card.ts:59-61 | the subtitle template: "by " and the git author's name, then the linked login and profile link and the timestamp, each on a new line indented by ten spaces as the template literal has it; `CreateMessageCard` and `CardFor` place it in the section |
| `MessageCard.ActivityImage` | src/message-card.ts:4-6 | the image is the author's avatar when set and non-empty, otherwise the fixed gravatar placeholder; it is never empty |
| `MessageCard.CreateMessageCard` | src/message-card.ts:1-72 | throws exactly when the commit has no git author record or no linked author, naming the git author first as the subtitle template reads it first; otherwise the card meets `CardFor`: summary and title are the notification summary, colour and text are copied, there is one section with the title template, image, subtitle and the facts unchanged, and the buttons meet `ActionsFor` |
| `MessageCard.CardFor` | src/message-card.ts:44-66 | the card record for an input: type and context constants, summary and title from the notification summary, colour, text, one section of title, image, subtitle and facts, and the buttons `ActionsFor` describes; `CreateMessageCard` and `Notify.Run` establish it |
| `MessageCard.ButtonNames` | src/message-card.ts:8-42 | a list meeting `ActionsFor` has a button of each name exactly when its option is on |
| `Facts.EventFact` | src/main.ts:45-47 | the first fact is labelled "Event type:" and holds the upper-cased event name between backticks |
| `Facts.ReadsCustomFacts` | src/main.ts:50 | custom facts are read when the input is non-empty and is not "null" in any case; `FactListShape` states the fact list's shape in both cases |
| `Facts.FactOf` | src/main.ts:56-57 | a complete entry's fact: the name followed by ":" and the value between backticks; `FactsOfShape` states that shape for every custom fact |
| `Facts.FirstNullish` | src/main.ts:55-56 | the walk over the list reaches exactly the entries before the first `null` element |
| `Facts.BuildFacts` | src/main.ts:43-68 | the loop's fact list equals `FactList`, and the counter equals the number of facts appended |
| `Facts.FactList` | src/main.ts:45-68 | the fact list as a function: the event fact, then the facts of the complete entries before the first `null` element when custom facts are read and parse to a list; `BuildFacts` is proved equal to it and `FactListShape` and the `FactsOf` lemmas specify it |
| `Facts.FactsOfAppend` | src/main.ts:55-60 | the facts of two lists in a row are the facts of the first followed by those of the second, so input order is kept |
| `Facts.FactsOfLength` | src/main.ts:55-58 | exactly one fact per entry with both `name` and `value` defined |
| `Facts.FactsOfAt` | src/main.ts:55-60 | a complete entry's fact sits right after the facts of the entries before it |
| `Facts.FactsOfShape` | src/main.ts:57 | every custom fact has a label ending in ":" and a value in backticks |
| `Facts.FactListShape` | src/main.ts:45-67 | the list starts with the event fact; it is that fact alone when custom facts are empty, "null" in any case, unparsable or not a list; otherwise it has one more fact per complete entry read |
| `RunInputs.OrDefault` | src/main.ts:70-77 | JavaScript's `input || fallback` on text: the input when non-empty, else the fallback |
| `RunInputs.ResolveOptions` | src/main.ts:70-77 | summary, colour and timezone default to "GitHub Action Notification", "0b93ff" and "UTC" and are never empty; each view flag is on iff its input is non-empty, so "false" turns it on |
| `RunInputs.RepoName` | src/main.ts:83-99 | with a slash, the name is the repository text up to its second slash (or the whole text) and holds exactly one slash; without a slash it is the text followed by "/undefined" |
| `RunInputs.RepoUrl` | src/main.ts:100 | the URL is "https://github.com/" followed by the repository name |
| `RunInputs.RepoNameOneSlash` | src/main.ts:83-100 | with exactly one slash the name is the whole repository text and the URL is "https://github.com/" followed by it |
| `Strings.SplitFirstTwo` | src/main.ts:83 | with a slash, the first two parts joined by a slash are a prefix of the text that holds one slash and ends at the text's end or just before its second slash |
| `Strings.Split` | src/main.ts:83 | splitting gives one more part than there are slashes, and no part contains a slash |
| `Strings.SplitJoin` | src/main.ts:83 | joining the parts with the separator gives back the text |
| `Strings.NatToDecimal` | src/main.ts:92 | the issue number's text is non-empty decimal digits without a leading zero |
| `Strings.DecimalRoundTrip` | src/main.ts:92 | reading that text as a decimal gives the issue number back |
| `EventLinks.WordEventNameMatch` | src/main.ts:91 | for a name of word characters, the event test matches iff the name starts with "issue" or "pull" |
| `EventLinks.IsIssueOrPullEvent` | src/main.ts:91 | the test `/\b(?:issue.*\|pull.*)\b/`: a match of "issue" or "pull" starting at a word boundary, followed by characters other than line terminators up to a word boundary; `WordEventNameMatch` turns it into a prefix test and `ReviewEventIsPullEvent` applies it |
| `EventLinks.ReviewEventIsPullEvent` | src/main.ts:91-94 | "pull_request_review" passes the event test, so the review branch is reachable |
| `EventLinks.DeriveLinks` | src/main.ts:89-97 | the pull number is set iff the event passes the test and pull-request links are wanted, and then is the issue number's decimal text and reads back as the issue number; the review link is set only for "pull_request_review" inside that guard; an unreadable review link there throws `EventPayloadUnreadable` |
| `Delivery.StatusFailures` | src/main.ts:146-155 | the three status checks in turn, not exclusive: the webhook report for 400, the retry report for 429, 412, 502 and 504, the range report outside 200-399; specified by `DeliveryFailures` and `DeliveryFailuresTable` |
| `Delivery.DeliveryFailures` | src/main.ts:138-166 | no report for 200 or for statuses outside the admitted set; the webhook report iff 400; the retry report iff 429, 412, 502 or 504; the range report iff an admitted status other than 200, and always last; an unanswered post gives the uncaught missing-response error and nothing else |
| `Delivery.DeliveryFailuresTable` | src/main.ts:146-155 | the reports are none for 200, the webhook report then the range report for 400, and the retry report then the range report for each transient status |
| `Notify.CardInputOf` | src/main.ts:89-125 | the record handed to the card builder carries the commit data; its pull number is set iff pull-request links are wanted and then reads back as the issue number; its review link is the event's href exactly for a review event inside that guard, else ""; its facts start with the event fact |
| `Notify.GatherCardInput` | src/main.ts:43-104 | the steps before the card fail exactly when the review link is needed and unreadable (`EventPayloadUnreadable`, met first) or the commit request fails (its message); otherwise the gathered record is `CardInputOf` |
| `Notify.Run` | src/main.ts:21-177 | each exception stops the run with exactly that one report, in the source's order: unreadable review link, failed commit request (with its message), missing git author, missing linked author; otherwise the posted card meets `CardFor` on `CardInputOf` (every field, and buttons equal to the guarded pushes) and the reports are those of the delivery outcome |
| `Notify.PostedCardShows` | src/main.ts:43-125 | a card meeting `CardFor` on `CardInputOf` carries the built fact list, the repository title, the defaulted summary (also the title) and colour, and each button kind exactly when its input is non-empty (for the pull-request button, also when the event passes the test) |
| `Markdown.EscapeMarkdownTokens` | src/main.ts:11-19 | the six replaces chained in source order over `CollapseIndent`; specified by `EscapeMarkdownTokensSinglePass`, `EscapeMarkdownTokensOutput` and `EscapeMarkdownTokensRoundTrip` |
| `Markdown.CollapseIndent` | src/main.ts:13 | `/\n\ {1,}/g` replaced by a line break and one space; the output is empty exactly when the input is and starts with the same character, and `CollapseIndentCollapses`, `CollapseIndentKeepsSkeleton` and `CollapseIndentUnique` pin it down |
| `Markdown.Escape` | src/main.ts:14-19 | a global replace of each character of a set by a backslash and that character, in one pass; empty exactly for empty input, and the first output character is a backslash exactly when the first input character is escaped; `UnescapeEscape` inverts it |
| `Markdown.EscapeMarkdownTokensSinglePass` | src/main.ts:11-19 | the six chained replaces equal one pass escaping all six tokens over the collapsed text |
| `Markdown.CollapseIndentCollapses` | src/main.ts:13 | after collapsing, no line break is followed by two spaces |
| `Markdown.IndentCollapsedAt` | src/main.ts:13 | that property holds at every position of the text |
| `Markdown.CollapseIndentKeepsSkeleton` | src/main.ts:13 | input and output are equal once the spaces after each line break are deleted, and a line break is followed by a space in the output exactly where it is in the input |
| `Markdown.SkeletonDeterminesCollapsed` | src/main.ts:13 | two texts with no line break followed by two spaces and the same skeleton are equal |
| `Markdown.CollapseIndentUnique` | src/main.ts:13 | the collapsed text is the only text with the input's skeleton and no line break followed by two spaces, so the two lemmas above pin the collapse down |
| `Markdown.EscapeMarkdownTokensOutput` | src/main.ts:11-19 | in the output every `_ * \| # - >` is preceded by a backslash and no line break is followed by more than one space |
| `Markdown.UnescapeEscape` | src/main.ts:14-19 | deleting each backslash that precedes a token undoes the escaping |
| `Markdown.EscapeMarkdownTokensRoundTrip` | src/main.ts:14-19 | when no line break is followed by a space, removing the inserted backslashes gives back the input exactly |

## Left out

- Reading inputs and environment variables (`core.getInput`, `process.env`), including the
  failure for a missing required input: these are I/O glue. Their values are parameters
  (`RawInputs`, `Environment`), and an unset variable is given as "".
- Loading and parsing the event file: the review link is a parameter, `None` when reading
  it throws (the file did not load, or the payload has no `review._links.html`). An
  `href` that is itself undefined is given as "", which the card treats the same way,
  since it tests the link for truthiness.
- YAML parsing of the custom facts: its result is the parameter `Parsed`. The conversion of
  YAML scalars to text by `+` is taken as given in each entry.
- `github.context.issue.number`: taken as a natural number. An event without a number, where
  `JSON.stringify` yields `undefined`, is not modelled.
- The commit request through Octokit: its result or error message is a parameter.
- The timestamp from `moment-timezone`: an opaque string parameter.
- The HTTP post and `axios-retry`: the number of attempts, the backoff and which statuses the
  library retries live in that library. Only the final outcome is a parameter, and only its
  classification is modelled. Re-throwing a non-Axios error from the rejection handler is not
  modelled: the model assumes every rejection of the post is an Axios error carrying the
  request, which an error raised before the request is sent (a malformed webhook URL, say)
  may not be.
- Logging (`console.log`, `core.group`, `core.error`).
- The rendering of the card as JSON text.
- `toUpperCase` and `toLowerCase` are modelled on ASCII letters only. Other letters are kept
  unchanged. For the comparison with "null" this is exact.
- `src/models` (the `Fact` class) is not part of this model. A fact is a label/value pair.
- `escapeMarkdownTokens` is not called anywhere in the action, so it stands alone here.
