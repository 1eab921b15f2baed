/**
 * The decisions of the `get` command and of the version-bumping commands
 * (`patch`, `minor`, `major`, `pre-release`, `build`): which version is
 * current, which version comes next, which tag name is printed, whether a
 * tag is created and with which exit status the program ends.
 *
 * Everything the program takes from outside is a parameter: the output (or
 * the failure) of `git tag`, the operations of the semver library, the
 * command-line flags, and the effect of running `git tag` to create a tag.
 */
module Commands {
  import opened Wrappers
  import opened GoStrings
  import GoStrconv
  import opened Semver
  import opened TagSelection
  import Config

  /**
   * The operations of the semver library the commands call: parsing a tag
   * name, the three increments, and setting a pre-release or build part,
   * which fail with the library's error text.
   */
  datatype Library = Library(
    parse: Parser,
    incPatch: Version -> Version,
    incMinor: Version -> Version,
    incMajor: Version -> Version,
    setPrerelease: (Version, string) -> Result<Version, string>,
    setMetadata: (Version, string) -> Result<Version, string>)

  /** The command-line flags: `--pre-release` and `--build` when set, and `--dryrun`. */
  datatype Flags = Flags(preRelease: Option<string>, build: Option<string>, dryrun: bool)

  /**
   * How a command ends: the exit status, the text it prints (the line on
   * standard output when it succeeds, the error message otherwise), and the
   * `git` command it ran to create a tag, if it ran one.
   */
  datatype Outcome = Outcome(code: nat, text: string, tagCommand: Option<seq<string>>)

  /** Runs a `git` command and gives its error text when it fails. */
  type Git = seq<string> -> Option<string>

  /**
   * `getVersion`: the failure of `git tag`, or the version selected from the
   * lines it printed.
   */
  function CurrentVersion(listing: Result<string, string>, prefix: string, parse: Parser): Result<Option<Version>, string> {
    match listing
    case Failure(e) => Failure(e)
    case Success(out) => Success(Select(ScanLines(out), prefix, parse))
  }

  /** The version the increment starts from: 0.1.0 without a current version, whatever `inc` says. */
  function Base(current: Option<Version>, inc: string, lib: Library): Version {
    match current
    case None => Bootstrap
    case Some(v) =>
      if inc == "patch" then lib.incPatch(v)
      else if inc == "minor" then lib.incMinor(v)
      else if inc == "major" then lib.incMajor(v)
      else v
  }

  /** Applies `--pre-release` when it is set. */
  function WithPrerelease(v: Version, flags: Flags, lib: Library): Result<Version, string> {
    match flags.preRelease
    case None => Success(v)
    case Some(p) =>
      match lib.setPrerelease(v, p)
      case Failure(e) => Failure("error setting pre-release " + GoStrconv.Quote(p) + ": " + e)
      case Success(w) => Success(w)
  }

  /** Applies `--build` when it is set. */
  function WithBuild(v: Version, flags: Flags, lib: Library): Result<Version, string> {
    match flags.build
    case None => Success(v)
    case Some(b) =>
      match lib.setMetadata(v, b)
      case Failure(e) => Failure("error setting build " + GoStrconv.Quote(b) + ": " + e)
      case Success(w) => Success(w)
  }

  /** The two overrides in the order the program applies them: pre-release first, then build. */
  function Overrides(v: Version, flags: Flags, lib: Library): Result<Version, string> {
    match WithPrerelease(v, flags, lib)
    case Failure(e) => Failure(e)
    case Success(w) => WithBuild(w, flags, lib)
  }

  /** The name of the tag for a version: the configured prefix, then the version's text. */
  function TagName(conf: Config.Config, v: Version): string {
    conf.versionPrefix + Render(v)
  }

  /** `createTag`'s command line: an annotated tag, signed when configured, with message "Version <name>". */
  function TagCommand(name: string, sign: bool): (cmd: seq<string>)
    ensures |cmd| == 6 && cmd[..2] == ["git", "tag"] && cmd[3] == "-m"
    ensures cmd[2] == (if sign then "-s" else "-a")
    ensures cmd[4] == "Version " + name && cmd[5] == name
  {
    ["git", "tag", if sign then "-s" else "-a", "-m", "Version " + name, name]
  }

  /** The outcome once the new version is known: create the tag unless dry-running, then print its name. */
  function Publish(name: string, sign: bool, dryrun: bool, git: Git): Outcome {
    if dryrun then Outcome(0, name, None)
    else
      var cmd := TagCommand(name, sign);
      match git(cmd)
      case Some(e) => Outcome(3, e, Some(cmd))
      case None => Outcome(0, name, Some(cmd))
  }

  /** The action of the version-bumping commands, for the increment `inc` ("" for `pre-release` and `build`). */
  function NextVersion(inc: string, conf: Config.Config, listing: Result<string, string>, flags: Flags, lib: Library, git: Git): Outcome {
    match CurrentVersion(listing, conf.versionPrefix, lib.parse)
    case Failure(e) => Outcome(2, e, None)
    case Success(current) =>
      match Overrides(Base(current, inc, lib), flags, lib)
      case Failure(e) => Outcome(3, e, None)
      case Success(v) => Publish(TagName(conf, v), conf.sign, flags.dryrun, git)
  }

  /**
   * The new version, or why there is none, for a successful `git tag`: the
   * base version chosen by `inc` with the overrides applied.
   */
  function NextStep(inc: string, conf: Config.Config, listing: Result<string, string>, flags: Flags, lib: Library): Result<Version, string>
    requires listing.Success?
  {
    Overrides(Base(Select(ScanLines(listing.value), conf.versionPrefix, lib.parse), inc, lib), flags, lib)
  }

  /** The action of the `get` command. */
  function Get(conf: Config.Config, listing: Result<string, string>, parse: Parser): Outcome {
    match CurrentVersion(listing, conf.versionPrefix, parse)
    case Failure(e) => Outcome(2, e, None)
    case Success(None) => Outcome(2, "no valid semver tags found", None)
    case Success(Some(v)) => Outcome(0, TagName(conf, v), None)
  }

  // ---- The current version ----

  /**
   * There is no current version exactly when `git tag` succeeded and none of
   * its lines has the prefix and parses; otherwise the current version is
   * that of such a line, and no such line's version exceeds it.
   */
  lemma CurrentVersionSpec(listing: Result<string, string>, prefix: string, parse: Parser)
    ensures CurrentVersion(listing, prefix, parse).Failure? <==> listing.Failure?
    ensures CurrentVersion(listing, prefix, parse) == Success(None) <==>
      listing.Success? && forall i :: 0 <= i < |ScanLines(listing.value)| ==> !Candidate(ScanLines(listing.value)[i], prefix, parse)
    ensures CurrentVersion(listing, prefix, parse).Success? && CurrentVersion(listing, prefix, parse).value.Some? ==>
      var tags := ScanLines(listing.value);
      var v := CurrentVersion(listing, prefix, parse).value.value;
      (exists i :: 0 <= i < |tags| && Candidate(tags[i], prefix, parse) && parse(tags[i]) == Some(v))
      && forall i :: 0 <= i < |tags| && Candidate(tags[i], prefix, parse) ==> !GreaterThan(parse(tags[i]).value, v)
  {
    if listing.Success? {
      var tags := ScanLines(listing.value);
      assert CurrentVersion(listing, prefix, parse) == Success(Select(tags, prefix, parse));
      SelectNone(tags, prefix, parse);
      if Select(tags, prefix, parse).Some? {
        SelectMaximal(tags, prefix, parse);
        var i :| 0 <= i < |tags| && Candidate(tags[i], prefix, parse) && parse(tags[i]) == Select(tags, prefix, parse);
        assert Candidate(ScanLines(listing.value)[i], prefix, parse);
      }
    }
  }

  // ---- The next version ----

  /** Without a current version the base is 0.1.0, whatever the increment. */
  lemma BaseWithoutTags(inc: string, lib: Library)
    ensures Base(None, inc, lib) == Bootstrap
    ensures Render(Base(None, inc, lib)) == "0.1.0"
  {
    RenderBootstrap();
  }

  /** An increment other than `patch`, `minor` and `major` keeps the current version. */
  lemma UnknownIncrementKeeps(v: Version, inc: string, lib: Library)
    requires inc !in {"patch", "minor", "major"}
    ensures Base(Some(v), inc, lib) == v
  {
  }

  /** Without a current version, the increment makes no difference to the outcome. */
  lemma IncrementIrrelevantWithoutTags(inc1: string, inc2: string, conf: Config.Config, listing: Result<string, string>,
                                       flags: Flags, lib: Library, git: Git)
    requires CurrentVersion(listing, conf.versionPrefix, lib.parse) == Success(None)
    ensures NextVersion(inc1, conf, listing, flags, lib, git) == NextVersion(inc2, conf, listing, flags, lib, git)
  {
  }

  /** A dry run in a repository without version tags and without overrides prints prefix + "0.1.0". */
  lemma DryRunWithoutTags(inc: string, conf: Config.Config, listing: Result<string, string>, lib: Library, git: Git)
    requires CurrentVersion(listing, conf.versionPrefix, lib.parse) == Success(None)
    ensures NextVersion(inc, conf, listing, Flags(None, None, true), lib, git) == Outcome(0, conf.versionPrefix + "0.1.0", None)
  {
    RenderBootstrap();
  }

  /** Both overrides succeed: the build part is set on the version whose pre-release was set. */
  lemma PrereleaseThenBuild(v: Version, p: string, b: string, dryrun: bool, lib: Library, w: Version, x: Version)
    requires lib.setPrerelease(v, p) == Success(w)
    requires lib.setMetadata(w, b) == Success(x)
    ensures Overrides(v, Flags(Some(p), Some(b), dryrun), lib) == Success(x)
  {
  }

  /** A failing pre-release override is reported with the flag's quoted value, and build is never tried. */
  lemma PrereleaseFailureStops(v: Version, flags: Flags, lib: Library, e: string,
                               metadata: (Version, string) -> Result<Version, string>)
    requires flags.preRelease.Some? && lib.setPrerelease(v, flags.preRelease.value) == Failure(e)
    ensures Overrides(v, flags, lib) == Failure("error setting pre-release " + GoStrconv.Quote(flags.preRelease.value) + ": " + e)
    ensures Overrides(v, flags, lib) == Overrides(v, flags, lib.(setMetadata := metadata))
  {
  }

  /** A failing build override is reported with the flag's quoted value. */
  lemma BuildFailureReported(v: Version, flags: Flags, lib: Library, w: Version, e: string)
    requires WithPrerelease(v, flags, lib) == Success(w)
    requires flags.build.Some? && lib.setMetadata(w, flags.build.value) == Failure(e)
    ensures Overrides(v, flags, lib) == Failure("error setting build " + GoStrconv.Quote(flags.build.value) + ": " + e)
  {
  }

  /** The overrides fail exactly when a set flag's library call fails; unset flags change nothing. */
  lemma OverridesSpec(v: Version, flags: Flags, lib: Library)
    ensures flags.preRelease.None? && flags.build.None? ==> Overrides(v, flags, lib) == Success(v)
    ensures Overrides(v, flags, lib).Failure? <==>
      (flags.preRelease.Some? && lib.setPrerelease(v, flags.preRelease.value).Failure?)
      || (WithPrerelease(v, flags, lib).Success? && flags.build.Some?
          && lib.setMetadata(WithPrerelease(v, flags, lib).value, flags.build.value).Failure?)
  {
  }

  // ---- The outcome ----

  /**
   * The exit status is 0, 2 or 3: 2 exactly when `git tag` failed, and 3 when
   * an override fails or creating the tag fails.
   */
  lemma ExitCodes(inc: string, conf: Config.Config, listing: Result<string, string>, flags: Flags, lib: Library, git: Git)
    ensures NextVersion(inc, conf, listing, flags, lib, git).code in {0, 2, 3}
    ensures NextVersion(inc, conf, listing, flags, lib, git).code == 2 <==> listing.Failure?
    ensures listing.Failure? ==> NextVersion(inc, conf, listing, flags, lib, git) == Outcome(2, listing.error, None)
  {
  }

  /**
   * An override that fails ends the command with status 3 and its message,
   * before any tag is created.
   */
  lemma OverrideFailureBeforeTag(inc: string, conf: Config.Config, listing: Result<string, string>, flags: Flags,
                                 lib: Library, git: Git, current: Option<Version>, e: string)
    requires CurrentVersion(listing, conf.versionPrefix, lib.parse) == Success(current)
    requires Overrides(Base(current, inc, lib), flags, lib) == Failure(e)
    ensures NextVersion(inc, conf, listing, flags, lib, git) == Outcome(3, e, None)
  {
  }

  /**
   * A tag is created exactly when `git tag` listed successfully, both
   * overrides succeeded and the run is not a dry run; the command creating it
   * names the tag prefix + the new version's text.
   */
  lemma TagCreatedIffNotDryRun(inc: string, conf: Config.Config, listing: Result<string, string>, flags: Flags,
                               lib: Library, git: Git)
    ensures NextVersion(inc, conf, listing, flags, lib, git).tagCommand.Some? <==>
      listing.Success? && NextStep(inc, conf, listing, flags, lib).Success? && !flags.dryrun
    ensures NextVersion(inc, conf, listing, flags, lib, git).tagCommand.Some? ==>
      NextVersion(inc, conf, listing, flags, lib, git).tagCommand.value == TagCommand(TagName(conf, NextStep(inc, conf, listing, flags, lib).value), conf.sign)
  {
  }

  /**
   * The command succeeds exactly when the new version is determined and, unless
   * dry-running, the tag is created; it then prints prefix + the version's text.
   */
  lemma SuccessPrintsName(inc: string, conf: Config.Config, listing: Result<string, string>, flags: Flags,
                          lib: Library, git: Git)
    ensures NextVersion(inc, conf, listing, flags, lib, git).code == 0 <==>
      listing.Success? && NextStep(inc, conf, listing, flags, lib).Success?
      && (flags.dryrun || git(TagCommand(TagName(conf, NextStep(inc, conf, listing, flags, lib).value), conf.sign)).None?)
    ensures NextVersion(inc, conf, listing, flags, lib, git).code == 0 ==>
      NextVersion(inc, conf, listing, flags, lib, git).text == conf.versionPrefix + Render(NextStep(inc, conf, listing, flags, lib).value)
  {
  }

  // ---- get ----

  /**
   * `get` succeeds exactly when some listed tag has the prefix and parses; it
   * then prints prefix + the text of the current version, and never creates a tag.
   */
  lemma GetSpec(conf: Config.Config, listing: Result<string, string>, parse: Parser)
    ensures Get(conf, listing, parse).tagCommand.None?
    ensures Get(conf, listing, parse).code in {0, 2}
    ensures listing.Failure? ==> Get(conf, listing, parse) == Outcome(2, listing.error, None)
    ensures Get(conf, listing, parse).code == 0 <==>
      listing.Success? && exists i :: 0 <= i < |ScanLines(listing.value)| && Candidate(ScanLines(listing.value)[i], conf.versionPrefix, parse)
    ensures listing.Success? && Get(conf, listing, parse).code == 2 ==> Get(conf, listing, parse).text == "no valid semver tags found"
    ensures Get(conf, listing, parse).code == 0 ==>
      Get(conf, listing, parse).text == conf.versionPrefix + Render(CurrentVersion(listing, conf.versionPrefix, parse).value.value)
  {
    CurrentVersionSpec(listing, conf.versionPrefix, parse);
  }

  /** `get` prints the name of the tag a bumping command would create without increment or overrides. */
  lemma GetMatchesUnchangedVersion(conf: Config.Config, listing: Result<string, string>, lib: Library, git: Git)
    requires Get(conf, listing, lib.parse).code == 0
    ensures NextVersion("", conf, listing, Flags(None, None, true), lib, git) == Get(conf, listing, lib.parse)
  {
  }
}
