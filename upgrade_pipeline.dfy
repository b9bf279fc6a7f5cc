/**
 * The repository upgrade run of `upgrade_repo` and `run_command`.
 *
 * The run derives the repository name, owner and authenticated URLs from the
 * GitHub URL, then runs eight commands strictly in order: clone, build the
 * OpenRewrite context, the Java 21 recipe, the Spring Boot 3.5 recipe, the
 * branch checkout of the recipe's changes, `git add`, `git commit`,
 * `git push`. Before the build it points `JAVA_HOME` at JDK 11 and before the
 * Spring Boot recipe at JDK 17, each time putting that JDK's `bin` in front
 * of `PATH`. The first command that exits non-zero ends the run.
 *
 * Processes are not executed: the environment's answer is one exit status per
 * command, `exitCodes[i]` for the i-th command started, and each command
 * started is logged with the arguments, working directory and environment it
 * received.
 */
module UpgradePipeline {
  import opened Wrappers
  import opened Strings

  /** The process environment, `os.environ`. */
  type Env = map<string, string>

  const DefaultBranch: string := "refactor/upgrade"
  const Jdk11: string := "C:\\Program Files\\Java\\jdk-11"
  const Jdk17: string := "C:\\Program Files\\Java\\jdk-17"
  const CommitMessage: string := "Upgrade project to Java 21 and Spring Boot 3.5"

  /** One started command: its arguments, its working directory (`None`: the caller's) and its environment. */
  datatype Invocation = Invocation(argv: seq<string>, cwd: Option<string>, env: Env)

  /** How a run ends: `sys.exit` on a failed command, or a Python exception before any or after the first command. */
  datatype RunResult = Completed | CommandFailed(argv: seq<string>) | UrlTooShort | PathUnset

  // ---------------------------------------------------------------------
  // Names and URLs.

  /**
   * `github_url.split("/")[-1].replace(".git", "")`: a single path component,
   * the URL's last segment itself when that holds no `.git`.
   */
  function RepoName(url: string): (r: string)
    ensures '/' !in r
    ensures !Contains(LastSegment(url, '/'), ".git") ==> r == LastSegment(url, '/')
  {
    var last := LastSegment(url, '/');
    var r := ReplaceAll(last, ".git", "");
    LastSegmentWithoutSeparator(url, '/');
    ReplaceAllChars(last, ".git", "");
    assert !Contains(last, ".git") ==> r == last by {
      if !Contains(last, ".git") {
        ReplaceAllAbsent(last, ".git", "");
      }
    }
    r
  }

  /** The URL has the two `/`-separated segments that `split("/")[-2]` needs. */
  predicate HasOwnerSegment(url: string) {
    |Split(url, '/')| >= 2
  }

  /** `github_url.split("/")[-2]`: the path component before the last one. */
  function RepoOwner(url: string): (r: string)
    requires HasOwnerSegment(url)
    ensures '/' !in r
  {
    SplitPiecesWithoutSeparator(url, '/');
    var parts := Split(url, '/');
    parts[|parts| - 2]
  }

  /**
   * The clone URL: every `https://` becomes `https://{token}@`, so a URL
   * starting with the scheme starts with the token after it, and a URL
   * without the scheme is cloned as it is.
   */
  function AuthUrl(url: string, token: string): (r: string)
    ensures StartsWith(url, "https://") ==> StartsWith(r, "https://" + token + "@")
    ensures !Contains(url, "https://") ==> r == url
  {
    var rep := "https://" + token + "@";
    if Contains(url, "https://") then
      var r := ReplaceAll(url, "https://", rep);
      assert StartsWith(url, "https://") ==> r[..|rep|] == rep;
      r
    else
      ReplaceAllAbsent(url, "https://", rep);
      ReplaceAll(url, "https://", rep)
  }

  /**
   * The push URL. With a token, owner and name that hold no `/`, and a name
   * without `.git`, it is a URL from which the owner and name derive back.
   */
  function PushUrl(token: string, owner: string, name: string): (r: string)
    ensures '/' !in token && '/' !in owner && '/' !in name && !Contains(name, ".git") ==>
      HasOwnerSegment(r) && RepoOwner(r) == owner && RepoName(r) == name
  {
    var r := "https://" + token + "@github.com/" + owner + "/" + name + ".git";
    if '/' !in token && '/' !in owner && '/' !in name && !Contains(name, ".git") then
      PushUrlPieces(token, owner, name);
      r
    else r
  }

  /** The push URL splits at its slashes into the scheme, an empty piece, the host, the owner and the last piece. */
  lemma PushUrlPieces(token: string, owner: string, name: string)
    requires '/' !in token && '/' !in owner && '/' !in name && !Contains(name, ".git")
    ensures var u := "https://" + token + "@github.com/" + owner + "/" + name + ".git";
      && Split(u, '/') == ["https:", "", token + "@github.com", owner, name + ".git"]
      && ReplaceAll(name + ".git", ".git", "") == name
  {
    var host := token + "@github.com";
    PushUrlSlashes(token, owner, name);
    assert '/' !in "https:" && '/' !in "@github.com";
    SplitUrlPieces("https:", host, owner, name + ".git", '/');
    ReplaceAllTrailing(name, ".git", "");
    assert name + "" == name;
  }

  /** The push URL, spelled out around its slashes. */
  lemma PushUrlSlashes(token: string, owner: string, name: string)
    ensures "https://" + token + "@github.com/" + owner + "/" + name + ".git"
      == "https:" + ['/'] + ['/'] + (token + "@github.com") + ['/'] + owner + ['/'] + (name + ".git")
  {
    assert "https://" == "https:" + ['/'] + ['/'];
    assert "@github.com/" == "@github.com" + ['/'];
  }

  /**
   * `os.path.join(directory, name)` for a relative name without a drive:
   * the directory, then the name, with one separator between them unless
   * the directory already ends in one.
   */
  function JoinPath(directory: string, name: string): (r: string)
    ensures StartsWith(r, directory) && EndsWith(r, name)
  {
    if directory == [] then name
    else if directory[|directory| - 1] in {'\\', '/'} then directory + name
    else directory + "\\" + name
  }

  /** Four pieces without `c`, the second one empty, joined by `c`, split back into those pieces. */
  lemma SplitUrlPieces(scheme: string, host: string, owner: string, tail: string, c: char)
    requires c !in scheme && c !in host && c !in owner && c !in tail
    ensures Split(scheme + [c] + [c] + host + [c] + owner + [c] + tail, c) == [scheme, [], host, owner, tail]
  {
    var ot := owner + [c] + tail;
    var hot := host + [c] + ot;
    var ehot := [] + [c] + hot;
    assert scheme + [c] + [c] + host + [c] + owner + [c] + tail == scheme + [c] + ehot;
    SplitLeadingPiece(scheme, c, ehot);
    SplitLeadingPiece([], c, hot);
    SplitLeadingPiece(host, c, ot);
    SplitLeadingPiece(owner, c, tail);
    SplitWithoutSeparator(tail, c);
  }

  /** The GitHub prefix, spelled out piece by piece. */
  lemma GitHubPrefix()
    ensures "https://github.com/" == "https:" + ['/'] + ['/'] + "github.com" + ['/']
  {
  }

  /** A GitHub URL splits at its slashes into the scheme, an empty piece, the host, the owner and the last piece. */
  lemma GitHubUrlPieces(owner: string, tail: string)
    requires '/' !in owner && '/' !in tail
    ensures Split("https://github.com/" + owner + "/" + tail, '/') == ["https:", "", "github.com", owner, tail]
  {
    GitHubPrefix();
    assert '/' !in "https:" && '/' !in "github.com";
    SplitUrlPieces("https:", "github.com", owner, tail, '/');
  }

  /** Injecting the token rewrites the leading scheme only, when the rest has no colon. */
  lemma AuthUrlLeadingScheme(rest: string, token: string)
    requires ':' !in rest
    ensures AuthUrl("https://" + rest, token) == "https://" + token + "@" + rest
  {
    NotContainsMissingChar(rest, "https://", 5);
    ReplaceAllLeading("https://", "https://" + token + "@", rest);
    ReplaceAllAbsent(rest, "https://", "https://" + token + "@");
  }

  /** The push URL is the token-injected form of the canonical URL. */
  lemma PushUrlShape(token: string, owner: string, name: string)
    ensures "https://" + token + "@" + ("github.com/" + owner + "/" + name + ".git") == PushUrl(token, owner, name)
  {
    assert "@github.com/" == "@" + "github.com/";
  }

  /** The URL `https://github.com/{owner}/{name}.git`. */
  function GitHubUrl(owner: string, name: string): string {
    "https://github.com/" + owner + "/" + name + ".git"
  }

  /** The owner segment of a GitHub URL is its owner. */
  lemma GitHubUrlOwner(owner: string, name: string)
    requires '/' !in owner && '/' !in name
    ensures HasOwnerSegment(GitHubUrl(owner, name)) && RepoOwner(GitHubUrl(owner, name)) == owner
  {
    assert GitHubUrl(owner, name) == "https://github.com/" + owner + "/" + (name + ".git");
    GitHubUrlPieces(owner, name + ".git");
  }

  /** The repository name of a GitHub URL is its name, when the name itself holds no `.git`. */
  lemma GitHubUrlName(owner: string, name: string)
    requires '/' !in owner && '/' !in name && !Contains(name, ".git")
    ensures RepoName(GitHubUrl(owner, name)) == name
  {
    assert GitHubUrl(owner, name) == "https://github.com/" + owner + "/" + (name + ".git");
    GitHubUrlPieces(owner, name + ".git");
    ReplaceAllTrailing(name, ".git", "");
    assert name + "" == name;
  }

  /**
   * A repository name that itself holds `.git` loses it too: every `.git`
   * is removed, not only the trailing one. For a GitHub Pages repository
   * the derived name is not the repository's.
   */
  lemma GitHubPagesName()
    ensures RepoName(GitHubUrl("octocat", "octocat.github.io")) == "octocathub.io"
  {
    GitHubUrlLastSegment("octocat", "octocat.github.io");
    PagesNameReplace();
  }

  /** The last piece of a GitHub URL is the name with `.git` appended. */
  lemma GitHubUrlLastSegment(owner: string, name: string)
    requires '/' !in owner && '/' !in name
    ensures LastSegment(GitHubUrl(owner, name), '/') == name + ".git"
  {
    assert GitHubUrl(owner, name) == "https://github.com/" + owner + "/" + (name + ".git");
    GitHubUrlPieces(owner, name + ".git");
  }

  /** Removing every `.git` from `octocat.github.io.git` removes the one inside `.github` as well. */
  lemma PagesNameReplace()
    ensures ReplaceAll("octocat.github.io" + ".git", ".git", "") == "octocathub.io"
  {
    var tail := "hub.io" + ".git";
    assert "octocat.github.io" + ".git" == "octocat" + (".git" + tail);
    ReplaceAllAfterFreePrefix("octocat", ".git" + tail, ".git", "");
    ReplaceAllLeading(".git", "", tail);
    NotContainsMissingChar("hub.io", ".git", 1);
    ReplaceAllTrailing("hub.io", ".git", "");
    assert "octocat" + ("" + "hub.io") == "octocathub.io";
  }

  /** Injecting the token into a GitHub URL gives the push URL. */
  lemma GitHubUrlAuth(owner: string, name: string, token: string)
    requires ':' !in owner && ':' !in name
    ensures AuthUrl(GitHubUrl(owner, name), token) == PushUrl(token, owner, name)
  {
    var rest := "github.com/" + owner + "/" + name + ".git";
    assert GitHubUrl(owner, name) == "https://" + rest by {
      assert "https://github.com/" == "https://" + "github.com/";
    }
    AuthUrlLeadingScheme(rest, token);
    PushUrlShape(token, owner, name);
  }

  /**
   * For a URL of the form `https://github.com/{owner}/{name}.git` the
   * derived owner and name are the URL's own, and the token-injected clone
   * URL is exactly the push URL.
   */
  lemma CanonicalUrl(owner: string, name: string, token: string)
    requires '/' !in owner && '/' !in name && ':' !in owner && ':' !in name
    requires !Contains(name, ".git")
    ensures var url := GitHubUrl(owner, name);
      && HasOwnerSegment(url)
      && RepoOwner(url) == owner
      && RepoName(url) == name
      && AuthUrl(url, token) == PushUrl(token, owner, name)
  {
    GitHubUrlOwner(owner, name);
    GitHubUrlName(owner, name);
    GitHubUrlAuth(owner, name, token);
  }

  // ---------------------------------------------------------------------
  // The command sequence.

  /** The environment after switching to the JDK installed at `javaHome`. */
  function WithJdk(env: Env, javaHome: string): (r: Env)
    requires "PATH" in env
    ensures r.Keys == env.Keys + {"JAVA_HOME"}
    ensures r["JAVA_HOME"] == javaHome
    ensures r["PATH"] == javaHome + "\\bin;" + env["PATH"]
    ensures forall k :: k in env && k != "JAVA_HOME" && k != "PATH" ==> r[k] == env[k]
  {
    env["JAVA_HOME" := javaHome]["PATH" := javaHome + "\\bin;" + env["PATH"]]
  }

  // The argument vectors of the eight commands.
  function CloneArgs(url: string, token: string): seq<string> {
    ["git", "clone", AuthUrl(url, token)]
  }
  const BuildArgs: seq<string> := ["mod", "build", "."]
  const Java21Args: seq<string> := ["mod", "run", ".", "--recipe", "UpgradeToJava21"]
  const SpringBootArgs: seq<string> := ["mod", "run", ".", "--recipe", "UpgradeSpringBoot_3_5"]
  function CheckoutArgs(branch: string): seq<string> {
    ["mod", "git", "checkout", ".", "-b", branch, "--last-recipe-run"]
  }
  const AddArgs: seq<string> := ["git", "add", "."]
  const CommitArgs: seq<string> := ["git", "commit", "-m", CommitMessage]
  function PushArgs(pushUrl: string, branch: string): seq<string> {
    ["git", "push", pushUrl, branch]
  }

  /**
   * The eight commands of a run that nothing interrupts, in order, with the
   * directory and environment each one is started with.
   */
  function Plan(url: string, token: string, branch: string, cwd: string, env0: Env): (r: seq<Invocation>)
    requires HasOwnerSegment(url) && "PATH" in env0
    ensures |r| == 8
  {
    var name := RepoName(url);
    var repoPath := Some(JoinPath(cwd, name));
    var env11 := WithJdk(env0, Jdk11);
    var env17 := WithJdk(env11, Jdk17);
    [ Invocation(CloneArgs(url, token), None, env0),
      Invocation(BuildArgs, repoPath, env11),
      Invocation(Java21Args, repoPath, env11),
      Invocation(SpringBootArgs, repoPath, env17),
      Invocation(CheckoutArgs(branch), repoPath, env17),
      Invocation(AddArgs, repoPath, env17),
      Invocation(CommitArgs, repoPath, env17),
      Invocation(PushArgs(PushUrl(token, RepoOwner(url), name), branch), repoPath, env17) ]
  }

  /**
   * The Java 21 recipe runs with `JAVA_HOME` at JDK 11 and the Spring Boot
   * recipe with JDK 17; each switch puts that JDK's `bin` in front of `PATH`
   * and keeps every earlier entry.
   */
  lemma PlanJdks(url: string, token: string, branch: string, cwd: string, env0: Env)
    requires HasOwnerSegment(url) && "PATH" in env0
    ensures var plan := Plan(url, token, branch, cwd, env0);
      && plan[2].env["JAVA_HOME"] == Jdk11
      && plan[2].env["PATH"] == Jdk11 + "\\bin;" + env0["PATH"]
      && plan[3].env["JAVA_HOME"] == Jdk17
      && plan[3].env["PATH"] == Jdk17 + "\\bin;" + Jdk11 + "\\bin;" + env0["PATH"]
  {
  }

  /**
   * The checkout creates the branch that is pushed, every command after the
   * clone runs in `cwd/repo_name`, and the push goes to the token-carrying
   * URL of the repository's owner and name.
   */
  lemma PlanBranchAndDirectory(url: string, token: string, branch: string, cwd: string, env0: Env)
    requires HasOwnerSegment(url) && "PATH" in env0
    ensures var plan := Plan(url, token, branch, cwd, env0);
      && plan[0].cwd == None
      && (forall i :: 1 <= i < 8 ==> plan[i].cwd == Some(JoinPath(cwd, RepoName(url))))
      && plan[4].argv[5] == branch && plan[7].argv[3] == branch
      && plan[7].argv[2] == PushUrl(token, RepoOwner(url), RepoName(url))
  {
  }

  /** The index of the first non-zero exit status from `i` on, or `|codes|` when there is none. */
  function FirstFailure(codes: seq<int>, i: nat): (k: nat)
    requires i <= |codes|
    ensures i <= k <= |codes|
    decreases |codes| - i
  {
    if i == |codes| then i
    else if codes[i] != 0 then i
    else FirstFailure(codes, i + 1)
  }

  /** `FirstFailure` is the first failure: everything before it succeeded. */
  lemma {:induction false} FirstFailureIsFirst(codes: seq<int>, i: nat)
    requires i <= |codes|
    ensures var k := FirstFailure(codes, i);
      && i <= k <= |codes|
      && (k < |codes| ==> codes[k] != 0)
      && forall j :: i <= j < k ==> codes[j] == 0
    decreases |codes| - i
  {
    if i < |codes| && codes[i] == 0 {
      FirstFailureIsFirst(codes, i + 1);
    }
  }

  /** A status that is the first non-zero one is what `FirstFailure` finds. */
  lemma {:induction false} FirstFailureAt(codes: seq<int>, i: nat, k: nat)
    requires i <= k <= |codes|
    requires forall j :: i <= j < k ==> codes[j] == 0
    requires k < |codes| ==> codes[k] != 0
    ensures FirstFailure(codes, i) == k
    decreases k - i
  {
    if i < k {
      FirstFailureAt(codes, i + 1, k);
    }
  }

  /** What a run leaves behind: the commands started, the environment and how it ended. */
  datatype Run = Run(log: seq<Invocation>, env: Env, result: RunResult)

  /**
   * The run `upgrade_repo` performs, stated by the first failing command:
   * with a usable URL and `PATH` set, the plan up to and including the first
   * command that fails, or all of it.
   */
  function ExpectedRun(url: string, token: string, branch: string, cwd: string, env0: Env, codes: seq<int>): Run
    requires |codes| == 8
  {
    if !HasOwnerSegment(url) then Run([], env0, UrlTooShort)
    else if "PATH" !in env0 then
      var clone := Invocation(CloneArgs(url, token), None, env0);
      if codes[0] != 0 then Run([clone], env0, CommandFailed(clone.argv))
      else Run([clone], env0["JAVA_HOME" := Jdk11], PathUnset)
    else
      var plan := Plan(url, token, branch, cwd, env0);
      var k := FirstFailure(codes, 0);
      if k == 8 then Run(plan, plan[7].env, Completed)
      else Run(plan[..k + 1], plan[k].env, CommandFailed(plan[k].argv))
  }

  /**
   * `run_command`: starts one command, the next one of `plan`; the run may go
   * on only when it exits with status 0.
   */
  method RunCommand(argv: seq<string>, cwd: Option<string>, env: Env, exitCodes: seq<int>,
                    log: seq<Invocation>, ghost plan: seq<Invocation>)
    returns (ran: seq<Invocation>, ok: bool)
    requires |log| < |plan| <= |exitCodes| && log == plan[..|log|]
    requires plan[|log|] == Invocation(argv, cwd, env)
    requires forall j :: 0 <= j < |log| ==> exitCodes[j] == 0
    ensures ran == plan[..|log| + 1]
    ensures ok <==> exitCodes[|log|] == 0
    ensures !ok ==> FirstFailure(exitCodes, 0) == |log|
  {
    ran := log + [Invocation(argv, cwd, env)];
    ok := exitCodes[|log|] == 0;
    if !ok {
      FirstFailureAt(exitCodes, 0, |log|);
    }
  }

  /**
   * Steps 2 to 4 of `upgrade_repo`: the OpenRewrite context and the Java 21
   * recipe under JDK 11, then the switch to JDK 17 and the Spring Boot 3.5
   * recipe. Ends at the first command that fails.
   */
  method Migrate(repoPath: string, env11: Env, exitCodes: seq<int>, log: seq<Invocation>, ghost plan: seq<Invocation>)
    returns (ran: seq<Invocation>, env: Env, ok: bool)
    requires |plan| == |exitCodes| == 8 && log == plan[..1] && exitCodes[0] == 0
    requires "PATH" in env11
    requires plan[1] == Invocation(BuildArgs, Some(repoPath), env11)
    requires plan[2] == Invocation(Java21Args, Some(repoPath), env11)
    requires plan[3] == Invocation(SpringBootArgs, Some(repoPath), WithJdk(env11, Jdk17))
    ensures ok ==> ran == plan[..4] && env == plan[3].env && forall j :: 0 <= j < 4 ==> exitCodes[j] == 0
    ensures !ok ==> var k := FirstFailure(exitCodes, 0);
      1 <= k < 4 && ran == plan[..k + 1] && env == plan[k].env
  {
    env := env11;
    ran, ok := RunCommand(BuildArgs, Some(repoPath), env, exitCodes, log, plan);
    if !ok { return; }
    ran, ok := RunCommand(Java21Args, Some(repoPath), env, exitCodes, ran, plan);
    if !ok { return; }

    // Point JAVA_HOME at JDK 17.
    env := WithJdk(env, Jdk17);
    ran, ok := RunCommand(SpringBootArgs, Some(repoPath), env, exitCodes, ran, plan);
  }

  /**
   * Steps 5 and 6 of `upgrade_repo`: the branch holding the recipe changes,
   * `git add`, `git commit` and the push. Ends at the first command that fails.
   */
  method Publish(repoPath: string, pushUrl: string, branch: string, env: Env, exitCodes: seq<int>,
                 log: seq<Invocation>, ghost plan: seq<Invocation>)
    returns (ran: seq<Invocation>, ok: bool)
    requires |plan| == |exitCodes| == 8 && log == plan[..4]
    requires forall j :: 0 <= j < 4 ==> exitCodes[j] == 0
    requires plan[4] == Invocation(CheckoutArgs(branch), Some(repoPath), env)
    requires plan[5] == Invocation(AddArgs, Some(repoPath), env)
    requires plan[6] == Invocation(CommitArgs, Some(repoPath), env)
    requires plan[7] == Invocation(PushArgs(pushUrl, branch), Some(repoPath), env)
    ensures ok ==> ran == plan && FirstFailure(exitCodes, 0) == 8
    ensures !ok ==> var k := FirstFailure(exitCodes, 0);
      4 <= k < 8 && ran == plan[..k + 1]
  {
    ran, ok := RunCommand(CheckoutArgs(branch), Some(repoPath), env, exitCodes, log, plan);
    if !ok { return; }
    ran, ok := RunCommand(AddArgs, Some(repoPath), env, exitCodes, ran, plan);
    if !ok { return; }
    ran, ok := RunCommand(CommitArgs, Some(repoPath), env, exitCodes, ran, plan);
    if !ok { return; }
    ran, ok := RunCommand(PushArgs(pushUrl, branch), Some(repoPath), env, exitCodes, ran, plan);
    if ok {
      FirstFailureAt(exitCodes, 0, 8);
    }
  }

  /**
   * `upgrade_repo`: returns the commands started, the environment left
   * behind and how the run ended.
   */
  method UpgradeRepo(url: string, token: string, cwd: string, env0: Env, exitCodes: seq<int>,
                     branch: string := DefaultBranch)
    returns (log: seq<Invocation>, env: Env, result: RunResult)
    requires |exitCodes| == 8
    ensures Run(log, env, result) == ExpectedRun(url, token, branch, cwd, env0, exitCodes)
  {
    var repoName := RepoName(url);
    if !HasOwnerSegment(url) {
      return [], env0, UrlTooShort;
    }
    var repoOwner := RepoOwner(url);
    var authUrl := AuthUrl(url, token);
    ghost var plan := if "PATH" in env0 then Plan(url, token, branch, cwd, env0)
      else [Invocation(CloneArgs(url, token), None, env0)];
    var ok;

    // Step 1: clone.
    log, ok := RunCommand(["git", "clone", authUrl], None, env0, exitCodes, [], plan);
    if !ok {
      return log, env0, CommandFailed(log[0].argv);
    }
    var repoPath := JoinPath(cwd, repoName);

    // Point JAVA_HOME at JDK 11; reading an unset PATH raises.
    if "PATH" !in env0 {
      return log, env0["JAVA_HOME" := Jdk11], PathUnset;
    }
    env := WithJdk(env0, Jdk11);

    log, env, ok := Migrate(repoPath, env, exitCodes, log, plan);
    if !ok {
      return log, env, CommandFailed(log[|log| - 1].argv);
    }

    // Push with the token-carrying URL.
    var pushUrl := PushUrl(token, repoOwner, repoName);
    log, ok := Publish(repoPath, pushUrl, branch, env, exitCodes, log, plan);
    if !ok {
      return log, env, CommandFailed(log[|log| - 1].argv);
    }
    return log, env, Completed;
  }

  // ---------------------------------------------------------------------
  // What a run guarantees.

  /**
   * Fail-fast: every command started before the last one exited with status
   * 0; the run reports a failed command exactly when the last command started
   * exited non-zero, names that command, and leaves behind the environment
   * it ran with.
   */
  lemma UpgradeFailFast(url: string, token: string, branch: string, cwd: string, env0: Env, codes: seq<int>)
    requires |codes| == 8
    ensures var r := ExpectedRun(url, token, branch, cwd, env0, codes);
      && |r.log| <= 8
      && (forall i :: 0 <= i < |r.log| - 1 ==> codes[i] == 0)
      && (r.result.CommandFailed? <==> |r.log| > 0 && codes[|r.log| - 1] != 0)
      && (r.result.CommandFailed? ==>
            r.result.argv == r.log[|r.log| - 1].argv && r.env == r.log[|r.log| - 1].env)
  {
    FirstFailureIsFirst(codes, 0);
    if HasOwnerSegment(url) && "PATH" in env0 {
      var plan := Plan(url, token, branch, cwd, env0);
      var k := FirstFailure(codes, 0);
      var r := ExpectedRun(url, token, branch, cwd, env0, codes);
      if k < 8 {
        assert r.log == plan[..k + 1] && |r.log| - 1 == k;
        assert r.log[k] == plan[k];
      } else {
        assert r.log == plan;
      }
    }
  }

  /**
   * How a run ends: a URL without an owner segment fails before anything
   * runs; with `PATH` unset only the clone runs, and a successful clone ends
   * in the error raised while switching JDKs, after `JAVA_HOME` was set;
   * otherwise the commands started are the plan's first ones, and the run
   * completes, leaving JDK 17 in front, exactly when all eight commands
   * succeed.
   */
  lemma UpgradeOutcomes(url: string, token: string, branch: string, cwd: string, env0: Env, codes: seq<int>)
    requires |codes| == 8
    ensures var r := ExpectedRun(url, token, branch, cwd, env0, codes);
      && (r.result == UrlTooShort <==> !HasOwnerSegment(url))
      && (r.result == UrlTooShort ==> r.log == [] && r.env == env0)
      && (HasOwnerSegment(url) && "PATH" !in env0 ==>
            && r.log == [Invocation(CloneArgs(url, token), None, env0)]
            && (r.result == PathUnset <==> codes[0] == 0)
            && (r.result == PathUnset ==> r.env == env0["JAVA_HOME" := Jdk11]))
      && (HasOwnerSegment(url) && "PATH" in env0 ==>
            1 <= |r.log| && r.log == Plan(url, token, branch, cwd, env0)[..|r.log|])
      && (r.result == Completed <==>
            HasOwnerSegment(url) && "PATH" in env0 && forall i :: 0 <= i < 8 ==> codes[i] == 0)
      && (r.result == Completed ==>
            r.log == Plan(url, token, branch, cwd, env0) && r.env == WithJdk(WithJdk(env0, Jdk11), Jdk17))
  {
    FirstFailureIsFirst(codes, 0);
    if HasOwnerSegment(url) && "PATH" in env0 && forall i :: 0 <= i < 8 ==> codes[i] == 0 {
      FirstFailureAt(codes, 0, 8);
    }
  }
}
