# git-semver, modelled in Dafny

`git-semver` is a small command-line tool. It finds the current semantic
version of a git repository from its tags, works out the next version, and
creates the tag for it. This project models the tool's own logic in
`main.go`, and proves what that logic promises:

- **The configuration parser** `parseConfig` reads `KEY=VALUE` lines.
  - Each line is trimmed.
  - Blank lines and `#` comment lines are skipped.
  - Other lines are cut at their first `=`, and key and value are trimmed.
  - A double-quoted value is unquoted like a Go string literal.
  - The upper-cased key selects `VERSION_PREFIX` or `GIT_SIGN`. Any other key is an error.
  - The first bad line stops parsing. The error names that trimmed line.

  `Config.ParseConfig` is the loop as the source writes it. It is proved
  equal to `Config.Parse`, a fold over what each line means, and the
  lemmas are stated about that fold.
- **Tag selection** in `getVersion` goes over the lines that `git tag` prints.
  - Tags without the configured prefix are skipped.
  - The others are parsed; tags that fail to parse are skipped too.
  - The strictly greatest version is kept.

  `TagSelection.LatestTag` is the loop. It is proved equal to the fold
  `TagSelection.Select`, and the lemmas characterise the fold.
- **The commands.** `get` prints the current version. The bumping commands
  (`patch`, `minor`, `major`, `pre-release`, `build`) compute the next
  version, create its tag unless dry-running, and print it. Each is a
  function from its inputs to an `Outcome`: the exit status, the printed
  text, and the `git` command run to create a tag, if any.

Modules:

| file | module | contents |
|---|---|---|
| wrappers.dfy | `Wrappers` | `Option`, `Result` |
| gostrings.dfy | `GoStrings` | `strings.TrimSpace`, `Cut`, `HasPrefix`, `ToUpper`, `bufio.ScanLines` |
| gostrconv.dfy | `GoStrconv` | `strconv.Unquote`, `Quote` (the `%q` verb), `ParseBool` |
| semver.dfy | `Semver` | version record, precedence (section 11 of Semantic Versioning 2.0.0), its text form |
| config.dfy | `Config` | `parseConfig` |
| selection.dfy | `TagSelection` | the selection loop of `getVersion` |
| commands.dfy | `Commands` | `nextVersion` and the action of `get` |

The tool takes several things from outside, and the model makes each of
them a parameter:

- the output of `git tag`, or its failure;
- the semver library's parser, increments and setters (`Commands.Library`);
- the command-line flags (`Commands.Flags`);
- the result of running the tag-creating `git` command (`Commands.Git`).

Version precedence and the text form of a version are concrete, following
Semantic Versioning 2.0.0.

The functions that compute, and the source they follow:

- `Commands.NextVersion` is the action of the bumping commands (main.go:114-160): the current version or the 0.1.0 base, the increment, the two overrides, the tag unless dry-running, and the printed name.
- `Commands.Get` is the action of `get` (main.go:100-111): the current version printed with its prefix, or exit status 2.
- `Commands.CurrentVersion` is `getVersion` (main.go:277-299): the failure of `git tag`, or the version selected from its lines.
- `Commands.TagCommand` is the command line `createTag` runs (main.go:264-269).
- `Config.LineSetting` is the body of the `parseConfig` loop for one line (main.go:229-259), with `Config.Assignment` for the part after the comment test (main.go:236-259) and `Config.KeySetting` for the `switch` (main.go:248-259).
- `Config.Parse` is `parseConfig` as a fold (main.go:225-262): `Config.Decode` gives each scanned line its meaning, and `Config.Run` applies them until the first error.
- `TagSelection.Select` is the selection loop of `getVersion` as a fold (main.go:283-297), one `TagSelection.Step` per tag line.
- `Semver.Compare` is version precedence (section 11 of Semantic Versioning 2.0.0), which `GreaterThan` uses at main.go:293.
- `Semver.Render` is the library's `String()`, used for the printed name at main.go:109 and 151.
- `GoStrconv.Quote` is the `%q` verb of the override error messages (main.go:142, 148), and `GoStrconv.Unquote` is `strconv.Unquote` (main.go:242).
- `GoStrings.ScanLines` is the line splitting of `bufio.Scanner` (main.go:227-228, 284-285).

The parser gets the **whole** tag, prefix included (main.go:288). The
prefix is used only to filter. It is not stripped before parsing, and the
model follows the code in this.

## Model

| member | source | states |
|---|---|---|
| GoStrings.TrimLeft | main.go:229 | drops exactly the leading white space: the result is a suffix, everything dropped is space, and it does not start with space |
| GoStrings.TrimRight | main.go:229 | drops exactly the trailing white space: the result is a prefix, everything dropped is space, and it does not end with space |
| GoStrings.TrimSpace | main.go:229 | the trimmed line neither starts nor ends with white space; it is empty exactly when the line is all white space |
| GoStrings.TrimSpaceSpec | main.go:229 | the trimmed line is an infix of the line, and everything cut away before and after it is white space |
| GoStrings.TrimLeftCut | main.go:229 | everything left trimming cuts away is white space |
| GoStrings.TrimRightCut | main.go:229 | everything right trimming cuts away is white space |
| GoStrings.TrimLeftSpace | main.go:229 | white space put in front makes no difference to left trimming |
| GoStrings.TrimRightSpace | main.go:229 | white space put behind makes no difference to right trimming |
| GoStrings.TrimLeftAppend | main.go:229 | left trimming a string with some non-space and then appending is the same as appending and then trimming |
| GoStrings.TrimSpaceSurrounded | main.go:229 | white space on either side of a string makes no difference to trimming |
| GoStrings.TrimSpaceAround | main.go:229 | a text that neither starts nor ends with white space, with white space on either side, trims to exactly that text |
| GoStrings.TrimSpaceAfter | main.go:240 | a trimmed key followed by white space trims to the key |
| GoStrings.TrimSpaceBefore | main.go:240 | a trimmed value after white space trims to the value |
| GoStrings.TrimSpaceIdentity | main.go:240 | a string that neither starts nor ends with white space is left unchanged by trimming |
| GoStrings.Cut | main.go:236-237 | no result exactly when `=` does not occur; otherwise the line is before + `=` + after, and before holds no `=` (the cut is at the first `=`) |
| GoStrings.CutAtFirst | main.go:236 | cutting before + `=` + after, with no `=` in before, gives back before and after, even when after holds more `=` |
| GoStrings.UpperChar | main.go:248 | ASCII lower-case letters become upper case; a change to an ASCII result happens only for lower-case letters and the two runes whose upper case is ASCII |
| GoStrings.ToUpper | main.go:248 | same length as the key, and upper-cased character by character; what key matching gets from it is stated by Config.UnitTestKeys and GoStrings.UpperChar |
| GoStrings.DropCR | main.go:227-228 | a line ending in a carriage return loses exactly that one character; any other line is kept as it is |
| GoStrings.ScanLines | main.go:227-228 | no line handed to the loop holds a newline |
| GoStrings.ScanLinesRoundTrip | main.go:284-285 | for text without carriage returns, rejoining the lines gives the text back, with a final newline added when it was missing |
| GoStrings.UnlinesRoundTrip | main.go:227-228 | lines without line breaks, each followed by a newline, are scanned back as the same lines |
| GoStrings.UnlinesCRLFRoundTrip | main.go:227-228 | lines without line breaks, each followed by a carriage return and a newline, are scanned back as the same lines |
| GoStrconv.HexDigit | main.go:242 | a hexadecimal digit's value is below 16 |
| GoStrconv.HexValue | main.go:242 | the value of n hexadecimal digits is below 16^n |
| GoStrconv.Unquote | main.go:241-246 | only a text wrapped in double quotes can be unquoted |
| GoStrconv.UnquoteEscape | main.go:242 | the escape that quoting writes for one character decodes to that character, whatever follows |
| GoStrconv.UnquoteSimpleEscape | main.go:242 | the one-letter escapes (`\"`, `\\`, `\n`, …) decode to their characters |
| GoStrconv.UnquoteHexEscape | main.go:242 | the `\xHH` escape of an ASCII control decodes to that control |
| GoStrconv.UnquotePlainChar | main.go:242 | a character other than quote, backslash and newline stands for itself |
| GoStrconv.UnquotePlain | main.go:242 | a run of characters other than quote, backslash and newline stands for itself, before any tail |
| GoStrconv.QuoteNoLineBreaks | main.go:142 | the `%q` form of a string holds no newline or carriage return |
| GoStrconv.QuoteCharsNoLineBreaks | main.go:142 | the escaped characters between the quotes hold no line breaks |
| GoStrconv.UnquoteQuote | main.go:241-246 | unquoting the `%q` form of any string gives that string back |
| GoStrconv.QuoteCharsRoundTrip | main.go:242 | decoding the escaped characters of any string gives that string back |
| GoStrconv.UnquotePlainLiteral | main.go:241-246 | a quoted literal of characters other than quote, backslash and newline unquotes to its inside |
| GoStrconv.UnquotePlainExample | main_test.go:40-43 | `"version/"` unquotes to `version/` |
| GoStrconv.UnquoteEscapedQuoteExample | main_test.go:44-47 | `"foo\"bar"` unquotes to `foo"bar` |
| GoStrconv.UnquoteBadEscapeExample | main_test.go:60-63 | `"foo\z"` is not a valid literal |
| GoStrconv.ParseBool | main.go:252-255 | true exactly for `1, t, T, TRUE, true, True`; false exactly for `0, f, F, FALSE, false, False`; every other text is an error; its use on configuration lines is stated by Config.SignStep and Config.UnitTestBooleans |
| Semver.CompareTextFlip | main.go:293 | comparing alphanumeric identifiers the other way round flips the result |
| Semver.CompareTextEqual | main.go:293 | identifiers compare equal exactly when they are equal |
| Semver.CompareTextLessTrans | main.go:293 | the identifier order is transitive |
| Semver.CompareIdentFlip | main.go:293 | comparing pre-release identifiers the other way round flips the result |
| Semver.CompareIdentEqual | main.go:293 | pre-release identifiers compare equal exactly when they are equal |
| Semver.CompareIdentLessTrans | main.go:293 | the pre-release identifier order is transitive |
| Semver.CompareIdentTrans | main.go:293 | pre-release identifier comparison is transitive for every outcome |
| Semver.CompareIdentsFlip | main.go:293 | comparing identifier lists the other way round flips the result |
| Semver.CompareIdentsEqual | main.go:293 | identifier lists compare equal exactly when they are equal |
| Semver.CompareIdentsLessTrans | main.go:293 | the identifier-list order is transitive |
| Semver.CompareFlip | main.go:293 | comparing versions the other way round flips the result |
| Semver.CompareEqual | main.go:293 | versions compare equal exactly when they agree in everything but build metadata |
| Semver.CompareLessTrans | main.go:293 | the version order is transitive |
| Semver.CompareSubstitute | main.go:293 | versions of the same precedence compare alike against any third version |
| Semver.CompareTrans | main.go:293 | version comparison is transitive for every outcome |
| Semver.GreaterThanOrder | main.go:293 | `GreaterThan` is irreflexive and transitive, and not-greater-than is transitive |
| Semver.ReleaseOutranksPrerelease | main.go:293 | a release outranks a pre-release of the same major.minor.patch |
| Semver.NatString | main.go:151 | a number is written as a non-empty string of decimal digits |
| Semver.NatStringRoundTrip | main.go:151 | reading back the decimal text of a number gives the number, and the text starts with 0 only for 0 |
| Semver.RenderBootstrap | main.go:124 | the first version is written `0.1.0` |
| TagSelection.Keep | main.go:293-295 | the kept version is the old one or the new one, and some version is always kept |
| TagSelection.Rejected | main.go:287-291 | every tag reported as unparsable has the prefix and fails to parse |
| TagSelection.LatestTag | main.go:283-297 | the loop returns the fold `Select` over the tag lines, and reports the unparsable tags in order |
| TagSelection.Candidates | main.go:287-292 | the candidate versions are at most as many as the tags |
| TagSelection.SelectIsBest | main.go:283-297 | the selection is the first maximal version among the candidates' versions |
| TagSelection.CandidatesSpec | main.go:287-292 | a version is a candidate version exactly when some tag has the prefix and parses to it |
| TagSelection.BestNone | main.go:283 | there is no best version exactly when there are no candidates |
| TagSelection.BestSpec | main.go:293-295 | the best version is one that no candidate exceeds, and every earlier candidate is strictly below it (the earliest of equals wins) |
| TagSelection.SelectNone | main.go:283-297 | nothing is selected exactly when no tag has the prefix and parses |
| TagSelection.SelectMaximal | main.go:283-297 | a selected version is that of a tag that has the prefix and parses, and no such tag's version exceeds it |
| TagSelection.CandidatesAppend | main.go:285-297 | the candidates of two tag lists in a row are those of each list in a row |
| TagSelection.NonCandidateIgnored | main.go:287-292 | removing a tag that lacks the prefix or does not parse leaves the selection unchanged |
| TagSelection.CandidateTags | main.go:287-292 | only tags that have the prefix and parse are kept |
| TagSelection.OnlyCandidatesMatter | main.go:287-292 | dropping every tag that lacks the prefix or does not parse leaves the selection unchanged |
| TagSelection.SameCandidates | main.go:287-292 | dropping the non-candidates keeps the candidate versions, in order |
| TagSelection.SelectExample | main.go:283-297 | among v1.0.0, v2.0.0-beta, v1.5 (a tag the given parser rejects), an unprefixed tag and v2.0.0, prefix `v` selects 2.0.0 |
| Config.Assignment | main.go:236-259 | an assignment line that is accepted always sets something |
| Config.KeySetting | main.go:248-259 | a recognised key that is accepted always sets something |
| Config.Decode | main.go:228-229 | one meaning per line, each the meaning of that line; what the loop makes of them is stated by Config.ParseConfig and Config.FirstErrorStops |
| Config.DecodeCons | main.go:228 | the first line's meaning comes first |
| Config.DecodePrefix | main.go:228 | the meanings of the first i lines are the first i meanings |
| Config.ParseConfig | main.go:225-262 | the loop returns what the fold over the scanned lines returns; on an error, that is the configuration built so far and the error |
| Config.SignStep | main.go:251-256 | a `GIT_SIGN` line whose value is not a boolean stops with an invalid-boolean error; otherwise it sets signing and parsing goes on |
| Config.NothingIffSkipped | main.go:229-235 | a line means nothing exactly when, trimmed, it is empty or starts with `#` |
| Config.Effective | main.go:230-235 | no step left means nothing |
| Config.RunIgnoresNothing | main.go:230-235 | dropping the steps that mean nothing does not change the result |
| Config.Significant | main.go:230-235 | no blank or comment line is left |
| Config.DecodeSignificant | main.go:230-235 | the lines that are not skipped mean exactly the steps that do something |
| Config.SkippedLinesIgnored | main.go:230-235 | removing blank and comment lines from any input does not change the result |
| Config.OnlySkippedLinesGiveDefaults | main.go:226-235 | an input of blank and comment lines only gives an empty prefix, signing off, and no error |
| Config.AllSkippedNothingSignificant | main.go:230-235 | when every line is skipped, no line is left |
| Config.EmptyInput | main.go:226-228 | an empty file gives the defaults and no error |
| Config.FirstErrorStops | main.go:237-258 | no error exactly when every line is accepted; otherwise the error is that of the first rejected line, with the configuration built by the lines before it |
| Config.NoErrorIffAllLinesAccepted | main.go:228-261 | parsing succeeds exactly when every line is accepted |
| Config.FirstBadLineReported | main.go:237-258 | a reported error is the error of a line that all lines before it accept, and the configuration returned is the one those lines build |
| Config.UnassignedKept | main.go:248-256 | a setting that no later line assigns again still holds at the end |
| Config.LastAssignmentWins | main.go:248-256 | in a successful parse, the last assignment to a key is the value it ends with |
| Config.AssignmentLine | main.go:236-248 | `k=v` is cut at its first `=`; an invalid quoted value is an invalid-quoted-string error naming the line; otherwise the upper-cased key decides |
| Config.KeyValueLine | main.go:248-258 | with an unquoted value, `VERSION_PREFIX` sets the prefix verbatim, `GIT_SIGN` sets the boolean or fails with an invalid-boolean error, and any other key fails with an unrecognized-variable error |
| Config.KeySettingCases | main.go:248-258 | each upper-cased key gives its setting or its error |
| Config.QuotedPrefixLine | main.go:241-250 | `VERSION_PREFIX=` followed by the `%q` form of any string sets the prefix to that string |
| Config.LineTrimmed | main.go:229 | a `k=v` line with trimmed parts is left unchanged by trimming |
| Config.LineNotComment | main.go:233 | a `k=v` line whose key does not start with `#` is no comment |
| Config.SurroundingSpaceIgnored | main.go:229 | white space on either side of a line does not change what it means |
| Config.PaddedLineTrimmed | main.go:229 | a `k=v` line with white space around the `=` is left unchanged by trimming |
| Config.PaddedLineNotComment | main.go:233 | such a line whose key does not start with `#` is no comment |
| Config.PaddedLineCut | main.go:236 | such a line is cut at the `=` after the key and its white space |
| Config.PaddedKeyTrimmed | main.go:240 | the key with its white space trims to the key |
| Config.PaddedValueTrimmed | main.go:240 | the value with the white space before it trims to the value |
| Config.PaddedLineFacts | main.go:229-240 | such a line is trimmed already, is no comment, is cut after the key's white space, and its parts trim to key and value |
| Config.CutLine | main.go:236-259 | a trimmed line that is no comment and is cut into key and value means what the trimmed key and the trimmed value give, the value unquoted when quoted |
| Config.PaddedAssignmentLine | main.go:229-259 | a `k=v` line with white space around the `=` is an invalid-quoted-string error naming the line as written, or the setting of the upper-cased key to the value |
| Config.PaddedLineLikeBare | main.go:229-259 | white space around the `=` does not change whether a line is accepted, nor the setting an accepted line gives |
| Config.KeySettingLine | main.go:248-258 | whether a key and value are accepted, and what they set, does not depend on the line; only the error names it |
| Config.NoEqualsLine | main.go:236-239 | a line that is not skipped and holds no `=` is an invalid-syntax error naming the trimmed line |
| Config.TextLines | main.go:227-228 | a file written as lines without line breaks parses like those lines |
| Config.TextLinesCRLF | main.go:227-228 | a file whose lines end in a carriage return and a newline parses like the same lines |
| Config.DecodeOne | main.go:228 | one line means one step |
| Config.DecodeTwo | main.go:228 | two lines mean two steps, in order |
| Config.RunOne | main.go:228-261 | the result of a single step |
| Config.RunTwo | main.go:228-261 | two settings are applied in order |
| Config.OneLineInput | main.go:225-262 | a one-line file gives that line's result |
| Config.TwoLines | main.go:227-228 | two lines, each followed by a newline, are scanned as those two lines |
| Config.TwoLineInput | main.go:225-262 | two accepted lines are applied in order |
| Config.PrefixLine | main.go:240-250 | a `VERSION_PREFIX` line sets the prefix to its value, unquoted when quoted |
| Config.SignLine | main.go:251-256 | a `GIT_SIGN` line with a boolean value sets signing to it |
| Config.NoLineBreaks | main.go:227-228 | a `k=v` line built from parts without line breaks has none |
| Config.PrefixInput | main_test.go:16-19 | a file holding only a prefix assignment gives that prefix and signing off |
| Config.SignInput | main_test.go:20-23 | a file holding only a boolean `GIT_SIGN` assignment gives an empty prefix and that boolean |
| Config.PrefixThenSignInput | main_test.go:24-43 | a prefix line then a sign line, keys in any case and the prefix possibly quoted, give both settings |
| Config.CommentFirstInput | main_test.go:32-35 | a leading comment line changes nothing |
| Config.BadLineInput | main_test.go:48-63 | a file whose only line is rejected gives the defaults and that line's error |
| Config.UnitTestKeys | main_test.go:28-31 | `version_prefix` and `git_sign` upper-case to the two names, and `bad_key` names no variable |
| Config.UnitTestBooleans | main_test.go:20-27 | `1` and `t` are true, `false` and `f` are false, and `wibble` is no boolean |
| Commands.TagCommand | main.go:264-269 | the tag command is `git tag`, then `-s` when signing or else `-a`, then `-m "Version <name>"`, then the name; when it is run is stated by Commands.TagCreatedIffNotDryRun |
| Commands.CurrentVersionSpec | main.go:277-297 | a failure of `git tag` is passed on; no current version exactly when no listed tag has the prefix and parses; otherwise the version of such a tag that no other exceeds |
| Commands.BaseWithoutTags | main.go:122-125 | without a current version the base is 0.1.0, whatever the increment |
| Commands.UnknownIncrementKeeps | main.go:128-137 | an increment other than patch, minor and major keeps the current version |
| Commands.IncrementIrrelevantWithoutTags | main.go:122-125 | without a current version, every increment gives the same outcome |
| Commands.DryRunWithoutTags | main.go:122-157 | a dry run without version tags or overrides exits 0, prints prefix + `0.1.0` and creates no tag |
| Commands.PrereleaseThenBuild | main.go:139-150 | with both overrides, the build part is set on the version whose pre-release was set |
| Commands.PrereleaseFailureStops | main.go:139-144 | a failing pre-release override gives `error setting pre-release <quoted value>: <error>`, and the build setter has no influence |
| Commands.BuildFailureReported | main.go:145-149 | a failing build override gives `error setting build <quoted value>: <error>` |
| Commands.OverridesSpec | main.go:139-150 | without overrides the version is unchanged; the overrides fail exactly when a set flag's setter fails |
| Commands.ExitCodes | main.go:114-159 | the exit status is 0, 2 or 3; it is 2 exactly when `git tag` fails, and then the message is that failure's |
| Commands.OverrideFailureBeforeTag | main.go:139-150 | a failing override exits 3 with its message, before any tag is created |
| Commands.TagCreatedIffNotDryRun | main.go:151-156 | a tag is created exactly when the listing and both overrides succeed and it is no dry run; the tag is prefix + the new version |
| Commands.SuccessPrintsName | main.go:151-158 | the command exits 0 exactly when the new version is known and, unless dry-running, the tag is created; it then prints prefix + the new version |
| Commands.GetSpec | main.go:100-111 | `get` creates no tag; it exits 2 with the `git` failure or with "no valid semver tags found"; otherwise it exits 0 and prints prefix + the current version, which happens exactly when some tag has the prefix and parses |
| Commands.GetMatchesUnchangedVersion | main.go:100-159 | when `get` succeeds, a dry bump without increment or overrides prints the same name |

## Left out

- `readConfig` (main.go:197-223) is left out. It searches `./.git-semver`, then `$XDG_CONFIG_HOME/git-semver`, then `$HOME/.config/git-semver`, then `$HOME/.git-semver/config`, and the first file that exists wins. That is environment and file-system I/O.
- `main`, the command table and the flag definitions (main.go:20-99, 162-191) are `urfave/cli` wiring. What they fix enters as parameters. The increment is `NextVersion`'s `inc`: `patch`/`next`, `minor` and `major` pass their names, while `pre-release` and `build` pass "". The flags enter as `Commands.Flags`: `--pre-release` and `--build` as the value when set, `--dryrun` as a boolean. The configuration the context carries is `Config.Config`, the `config` struct of main.go:192-195.
- The `Required: true` of the `--pre-release` flag of `pre-release` and of the `--build` flag of `build` (main.go:175, 184, set at 78 and 90) is enforced by `urfave/cli` before the action runs. The model does not enforce it: `Commands.Flags` may leave either unset for any increment, and the lemmas hold for every `Flags`.
- The `build` command defines no `--pre-release` flag (main.go:88-91), so for it the override is never set. The model does not tie the flags to the command.
- Running `git` (main.go:269, 278) is left out. The command line of `createTag` (main.go:264-269) is `Commands.TagCommand`, and the result of running it is the `Commands.Git` parameter. The output of `git tag` is an input. The command output that the tool echoes to standard error (main.go:271, 280) is not modelled.
- The semver library's parser, increments and setters are function parameters. None of their behaviour is assumed. The tool prints a version with the library's `String()`, which `Semver.Render` models as the Semantic Versioning 2.0.0 text of the version's parts.
- The `log.Printf` warning for an unparsable tag is not printed. `TagSelection.Rejected` lists those tags in order instead.
- `bufio.Scanner` has a token-size limit, and `s.Err()` can fail on a read error (main.go:261, 298). The model has neither: a scan always ends without error.
- Strings are sequences of Unicode scalar values, so invalid UTF-8 is not modelled. `\x` and octal escapes at 0x80 or above give a raw byte in Go; the model gives the character with that code point.
- GoStrconv.Quote: models the `%q` form only for printable characters and ASCII controls. Go escapes non-printable non-ASCII characters as `\u`/`\U`, and the model keeps them unescaped. This matters only in the override error messages.
- GoStrings.ToUpper: upper-cases ASCII letters and the two non-ASCII runes whose upper case is ASCII, and keeps every other rune. Go changes other runes too, but none of them becomes ASCII, so key matching is unaffected.
- `main_test.go` is covered by generic lemmas over keys and values (`Config.PrefixInput` and its neighbours), plus lemmas for the literal facts they need (`Config.UnitTestKeys`, `Config.UnitTestBooleans`, the `GoStrconv` examples). The expected error texts (main_test.go:50, 54, 58, 62) are what `ConfigError.Message` gives, but they are not proved as whole literal strings.
