/** The plain decisions `run()` (src/main.ts) takes on its inputs: option defaults, view
    flags, and the repository name and URL. */
module RunInputs {
  import opened Strings

  /** The action inputs as read; an input that was not given reads as "". */
  datatype RawInputs = RawInputs(
    notificationSummary: string,
    description: string,
    notificationColor: string,
    viewCommitChanges: string,
    viewPullRequest: string,
    viewWorkflowRun: string,
    timezone: string)

  datatype Options = Options(
    notificationSummary: string,
    description: string,
    notificationColor: string,
    viewChanges: bool,
    viewPullRequest: bool,
    viewWorkflowRun: bool,
    timezone: string)

  const DefaultSummary := "GitHub Action Notification"
  const DefaultColor := "0b93ff"
  const DefaultTimezone := "UTC"

  /** JavaScript's `input || fallback` on strings. */
  function OrDefault(input: string, fallback: string): (r: string)
    ensures input != "" ==> r == input
    ensures input == "" ==> r == fallback
  {
    if input != "" then input else fallback
  }

  /** Applies the defaults and turns each view input into a flag that is set by any non-empty
      text, "false" included. */
  function ResolveOptions(raw: RawInputs): (o: Options)
    ensures o.notificationSummary == OrDefault(raw.notificationSummary, DefaultSummary)
    ensures o.description == raw.description
    ensures o.notificationColor == OrDefault(raw.notificationColor, DefaultColor)
    ensures o.timezone == OrDefault(raw.timezone, DefaultTimezone)
    ensures o.viewChanges <==> raw.viewCommitChanges != ""
    ensures o.viewPullRequest <==> raw.viewPullRequest != ""
    ensures o.viewWorkflowRun <==> raw.viewWorkflowRun != ""
    ensures o.notificationSummary != "" && o.notificationColor != "" && o.timezone != ""
  {
    Options(
      OrDefault(raw.notificationSummary, DefaultSummary),
      OrDefault(raw.description, ""),
      OrDefault(raw.notificationColor, DefaultColor),
      raw.viewCommitChanges != "",
      raw.viewPullRequest != "",
      raw.viewWorkflowRun != "",
      OrDefault(raw.timezone, DefaultTimezone))
  }

  /** `owner + '/' + repo` where `[owner, repo]` destructures the repository text split on
      slashes; a missing second part reads as "undefined". With a slash, the name is the
      text up to the second slash, or the whole text when there is no second slash. */
  function RepoName(repository: string): (name: string)
    ensures Occurrences(repository, '/') == 0 ==> name == repository + "/undefined"
    ensures Occurrences(repository, '/') >= 1 ==>
      && StartsWith(repository, name)
      && Occurrences(name, '/') == 1
      && (|name| == |repository| || repository[|name|] == '/')
  {
    var parts := Split(repository, '/');
    SplitJoin(repository, '/');
    if |parts| > 1 then
      SplitFirstTwo(repository, '/');
      parts[0] + "/" + parts[1]
    else
      parts[0] + "/" + "undefined"
  }

  function RepoUrl(repository: string): (url: string)
    ensures StartsWith(url, "https://github.com/")
    ensures url[|"https://github.com/"|..] == RepoName(repository)
  {
    "https://github.com/" + RepoName(repository)
  }

  /** With exactly one slash the name is the whole repository text and the URL its page. */
  lemma RepoNameOneSlash(repository: string)
    requires Occurrences(repository, '/') == 1
    ensures RepoName(repository) == repository
    ensures RepoUrl(repository) == "https://github.com/" + repository
  {
    var parts := Split(repository, '/');
    SplitJoin(repository, '/');
    assert |parts| == 2;
    assert Join(parts, '/') == parts[0] + "/" + Join(parts[1..], '/');
  }
}
