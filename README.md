# tegofy: the message filter and notification composer

tegofy watches a Typetalk stream and, for each post that matches a watched
keyword, raises a desktop alert and optionally reposts a summary into a
Typetalk topic. This project models the decision logic of its stream handler
(`notify` in `main.go`) and the predicates that handler calls. It also models
three small pure pieces: the OAuth scope string, the merge of command-line
keywords into the configured ones, and `FmtVersion`.

Modules:

- `Stream` (`stream.dfy`): the decoded stream message. `Space` and
  `DirectMessage`, which are nil pointers in Go when absent, are `Option`s.
- `Settings` (`settings.dfy`): `Config` and `Keyword`, the keyword merge
  (`AppendFlagKeywords`, specified by `WithFlagKeywords`) and `OAuthScope`.
- `Filter` (`filter.dfy`): the checks `isTargetSpace`, `isPostMessage`,
  `isNotifyTopic`, `isMention`, `isDM`, `isBot`, `isIgnoreUser` and
  `containsKeyWords`. The loops of the source are methods proved against
  predicates and against `KeywordMatches`. `Classify` is the chain of checks
  as one decision, with the first failed check named as the drop reason.
- `Notify` (`notify.dfy`): the post address, the two message bodies and
  `Handle`, the handler itself. `Handle` returns the calls it makes to the
  two sinks, in order: the desktop alert and the repost. It also returns
  the log entry written when the repost fails. `Effects` specifies that
  result.
- `Versioning` (`version.dfy`): `FmtVersion`.
- Helpers: `Strings` (Go's `strings.Contains`, `strings.Builder` and `%v` on
  a `[]string`; `Join` spells out the list inside that rendering, and `Split`
  only reads results back in lemmas, since the source calls neither),
  `Decimal` (`%d` and its parser), and `Wrappers` (`Option`).

The Go globals `config` and `myAccount` are explicit parameters: `config`
and `me`, the signed-in account's name. The outcome of the repost call is
the input `postError`.

Behaviour one might expect that the code does not have:

- The code truncates neither the topic name nor the message.
- The code has no separate "mention marker"; the self-mention check is the
  account name.
- The matched keywords are rendered by `%v`, which joins them with spaces,
  not commas.
- No toggle besides `NotifyTypetalk > 0` enables the repost.

## Model

| member | source | states |
|---|---|---|
| `Filter.IsTargetSpace` | main.go:197-204 | true iff the message has a space and its key equals some configured space key; so false when the space is absent or no key is configured |
| `Filter.IsIgnoreUser` | main.go:226-235 | true iff the author's name equals some entry of the ignore list |
| `Filter.ContainsKeyWords` | main.go:237-251 | the loop's result is `KeywordMatches` of the configured keywords |
| `Filter.KeywordMatchesExactly` | main.go:237-251 | the matches are, in rule order and one per rule, the keywords of exactly the rules that are non-empty, occur in the text and are unscoped (topic ≤ 0) or scoped to the message's topic; they form a subsequence of the keyword list |
| `Filter.KeywordMatchesMembers` | main.go:240-247 | a string is matched iff some selecting rule carries it; every match is non-empty and occurs in the message |
| `Filter.KeywordMatchesAppend` | main.go:239-249 | matching a concatenated rule list gives the concatenation of the matches |
| `Filter.KeywordMatchesSameText` | main.go:237-251 | matching reads only the message text and topic id |
| `Filter.DuplicateKeywordsKept` | main.go:239-248 | for a message containing `urgent`, rules `urgent`/any topic and `urgent`/topic 7 give `["urgent","urgent"]` in topic 7 and `["urgent"]` elsewhere |
| `Filter.FlagKeywordMatchesAnyTopic` | main.go:120-124 | a non-empty command-line keyword that occurs in the text is matched whatever the topic |
| `Filter.ClassifyFirstFailure` | main.go:255-279 | a message is dropped for a given check iff that check fails and every check before it in the handler's order passes |
| `Filter.ClassifyNotify` | main.go:255-279 | a message is selected iff it passes all eight checks, and then its matches are the non-empty keyword matches |
| `Settings.WithFlagKeywords` | main.go:120-124 | the merged list keeps the configured keywords as its prefix and appends each command-line keyword in order with topic 0 |
| `Settings.AppendFlagKeywords` | main.go:120-124 | the append loop yields `WithFlagKeywords` |
| `Settings.OAuthScope` | main.go:142-145 | the scope's space-separated tokens are `my`, `topic.read`, then `topic.post` iff `NotifyTypetalk > 0` |
| `Versioning.FmtVersion` | version.go:9-14 | exactly `"0.1.2"` when the revision is empty; always has the version as prefix; equals the version iff the revision is empty; otherwise continues with `", build "` and the revision |
| `Versioning.RevisionRoundTrip` | version.go:13 | the revision can be read back from the version text |
| `Decimal.FormatInt` | main.go:281-282 | `%d` gives a non-empty string of digits, led by `-` iff the number is negative, with no leading zero (after the sign) except for 0 itself |
| `Decimal.ParseFormatInt` | main.go:281-282 | the decimal text is read back to the same integer |
| `Notify.PostURL` | main.go:281-282 | the post address starts with `https://typetalk.com/topics/` and holds no line break |
| `Notify.PostURLRoundTrip` | main.go:281-282 | the topic and post ids are read back from the address, so distinct posts get distinct addresses |
| `Notify.WriteDesktopBody` | main.go:285-288 | the builder's text is the address, a line break, then the message |
| `Notify.WriteRepostBody` | main.go:296-303 | the builder's text is the address, a line break, `matches: ` with the `%v` rendering, a line break, then the mention only when enabled |
| `Notify.Handle` | main.go:253-311 | the handler's sink calls are `Effects`: nothing for a dropped message; for a selected one the desktop alert when enabled, then the repost when `NotifyTypetalk > 0`, then the failure log when the repost fails |
| `Notify.EffectsOnlyWhenSelected` | main.go:255-279 | any sink call implies all eight checks passed with non-empty matches; a selected message with a sink enabled causes a call |
| `Notify.FailsClosed` | main.go:197-220 | no call when no space key is configured, the message has no space, it is not a `postMessage`, it is in the repost topic, the account name is empty, or it is a direct message |
| `Notify.MentionIsSubstring` | main.go:214-216 | `isMention` holds iff the account name occurs somewhere in the message text, case-sensitively |
| `Strings.ContainsIffOccurs` | main.go:215 | `strings.Contains` is true iff the substring occurs at some position |
| `Notify.BotFlagIgnoredUnlessConfigured` | main.go:222-224 | with `IgnoreBot` false, the author's bot flag changes nothing |
| `Notify.DesktopAlert` | main.go:284-293 | a desktop alert is sent iff the message is selected and desktop alerts are on; it comes first, is titled with the topic name, its first line is the post address and the rest is the whole message, untruncated |
| `Notify.RepostTarget` | main.go:295-305 | a repost is sent iff the message is selected and `NotifyTypetalk > 0`; it goes to that topic, never to the topic of the triggering message, and carries the repost body of the address, the matches and the mention flag |
| `Notify.RepostLayout` | main.go:296-303 | when the address, the account name and the keywords hold no line break, the repost body has three lines: the address, `matches: ` with the bracketed space-joined keywords, and `@name by tegofy` or nothing; space-free keywords can be read back |
| `Strings.FormatSliceRoundTrip` | main.go:299 | `%v` on a non-empty `[]string` is bracketed and its space-free elements are read back by splitting on spaces |
| `Notify.RepostErrorOnlyLogged` | main.go:304-308 | a failing repost adds only the failure log entry; every other call is unchanged |

## Left out

- Flag binding, config-file and environment loading, and `Debug` printing
  (main.go:61-132, main.go:138-140): library-driven I/O. Only the
  keyword-append loop is modelled. `Config` arrives already populated.
- The OAuth token source, the API client and the profile fetch
  (main.go:147-161): network calls. The account name is an input.
- The stream subscription goroutine, signal handling and timeout-bounded
  `Shutdown` (main.go:162-194): concurrency and OS signals.
- `beeep.Notify` and `api.Messages.PostMessage`: foreign calls. They are
  recorded as `Effect` values. The source discards `beeep.Notify`'s error, so
  the model has no outcome for it. The repost's error text is not modelled,
  only the fact that it is logged.
- The logging helpers (main.go:313-326): only the repost-failure log entry
  appears, as `RepostFailed`.
- `IgnoreUsers` is `[]interface{}` in Go. It is a list of strings here,
  because an entry that is not a string never equals the author's name.
- Go's `int` is 64 bits. Ids are unbounded integers here, and `%d` is
  modelled for every integer.
- Go strings are byte strings and strings here are `seq<char>`. Substring
  tests and splitting agree on both for valid UTF-8 text.
- `Classify`'s drop `Reason` does not exist in the source. It names the first
  failed check so that the order of the checks can be stated.
- config.go is not part of this model: it declares only types that the
  handler never reads.
