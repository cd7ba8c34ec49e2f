/**
 * The checks the stream handler applies to each message, with the global
 * configuration and the signed-in account's name as explicit parameters, and
 * the decision they add up to.
 */
module Filter {
  import opened Wrappers
  import opened Strings
  import opened Stream
  import opened Settings

  /** The message comes from a space whose key is configured. */
  predicate InTargetSpace(config: Config, msg: Message) {
    msg.data.space.Some? && msg.data.space.value.key in config.spaceKeys
  }

  /** `isTargetSpace`: scans the configured space keys for the message's space. */
  method IsTargetSpace(config: Config, msg: Message) returns (target: bool)
    ensures target <==> msg.data.space.Some? && exists i :: 0 <= i < |config.spaceKeys| && config.spaceKeys[i] == msg.data.space.value.key
    ensures target == InTargetSpace(config, msg)
  {
    for i := 0 to |config.spaceKeys|
      invariant !(msg.data.space.Some? && msg.data.space.value.key in config.spaceKeys[..i])
    {
      if msg.data.space.Some? && config.spaceKeys[i] == msg.data.space.value.key {
        return true;
      }
    }
    return false;
  }

  /** `isPostMessage` */
  predicate IsPostMessage(msg: Message) {
    msg.msgType == "postMessage"
  }

  /** `isNotifyTopic`: the message is in the topic the notifier reposts into. */
  predicate IsNotifyTopic(config: Config, msg: Message) {
    config.notifyTypetalk > 0 && msg.data.topic.id == config.notifyTypetalk
  }

  /** `isMention`: the message text contains the signed-in account's name. */
  predicate IsMention(me: string, msg: Message) {
    Contains(msg.data.post.message, me)
  }

  /** `isDM` */
  predicate IsDM(msg: Message) {
    msg.data.directMessage.Some?
  }

  /** `isBot`: the author is a bot and bots are ignored. */
  predicate IsBot(config: Config, msg: Message) {
    config.ignoreBot && msg.data.post.account.isBot
  }

  /** The author's name is on the ignore list. */
  predicate IgnoredUser(config: Config, msg: Message) {
    msg.data.post.account.name in config.ignoreUsers
  }

  /** `isIgnoreUser`: scans the ignore list, stopping at the first equal name. */
  method IsIgnoreUser(config: Config, msg: Message) returns (matched: bool)
    ensures matched <==> exists i :: 0 <= i < |config.ignoreUsers| && config.ignoreUsers[i] == msg.data.post.account.name
    ensures matched == IgnoredUser(config, msg)
  {
    matched := false;
    var i := 0;
    while i < |config.ignoreUsers|
      invariant 0 <= i <= |config.ignoreUsers|
      invariant !matched && msg.data.post.account.name !in config.ignoreUsers[..i]
    {
      if msg.data.post.account.name == config.ignoreUsers[i] {
        matched := true;
        break;
      }
      i := i + 1;
    }
  }

  /** A keyword rule selects a message: non-empty, contained in the text, and unscoped or scoped to its topic. */
  predicate Selects(kw: Keyword, msg: Message) {
    |kw.keyword| > 0 && Contains(msg.data.post.message, kw.keyword)
    && (kw.topicID <= 0 || kw.topicID == msg.data.topic.id)
  }

  /** The selecting keywords, in rule order, one entry per selecting rule. */
  function KeywordMatches(keywords: seq<Keyword>, msg: Message): seq<string>
    decreases |keywords|
  {
    if |keywords| == 0 then []
    else
      var n := |keywords| - 1;
      KeywordMatches(keywords[..n], msg) + (if Selects(keywords[n], msg) then [keywords[n].keyword] else [])
  }

  /** `containsKeyWords`: appends each selecting keyword in turn. */
  method ContainsKeyWords(config: Config, msg: Message) returns (matches: seq<string>)
    ensures matches == KeywordMatches(config.keywords, msg)
  {
    var keywords := config.keywords;
    matches := [];
    for i := 0 to |keywords|
      invariant matches == KeywordMatches(keywords[..i], msg)
    {
      assert keywords[..i + 1][..i] == keywords[..i];
      var v := keywords[i];
      if |v.keyword| > 0 && Contains(msg.data.post.message, v.keyword) {
        if v.topicID <= 0 {
          matches := matches + [v.keyword];
          continue;
        }
        if v.topicID == msg.data.topic.id {
          matches := matches + [v.keyword];
        }
      }
    }
    assert keywords[..|keywords|] == keywords;
  }

  /** Matching distributes over concatenated rule lists. */
  lemma {:induction false} KeywordMatchesAppend(a: seq<Keyword>, b: seq<Keyword>, msg: Message)
    ensures KeywordMatches(a + b, msg) == KeywordMatches(a, msg) + KeywordMatches(b, msg)
    decreases |b|
  {
    if |b| > 0 {
      var n := |b| - 1;
      assert (a + b)[..|a + b| - 1] == a + b[..n];
      KeywordMatchesAppend(a, b[..n], msg);
    } else {
      assert a + b == a;
    }
  }

  ghost predicate StrictlyIncreasing(idx: seq<int>) {
    forall j, k :: 0 <= j < k < |idx| ==> idx[j] < idx[k]
  }

  /**
   * The matches are exactly the selecting rules' keywords: there is an
   * increasing list of rule positions, holding every selecting rule and no
   * other, whose keywords are the matches in order.
   */
  lemma {:induction false} KeywordMatchesExactly(keywords: seq<Keyword>, msg: Message) returns (idx: seq<int>)
    ensures StrictlyIncreasing(idx)
    ensures |idx| == |KeywordMatches(keywords, msg)|
    ensures forall j :: 0 <= j < |idx| ==>
      0 <= idx[j] < |keywords| && KeywordMatches(keywords, msg)[j] == keywords[idx[j]].keyword
    ensures forall i :: 0 <= i < |keywords| ==> (i in idx <==> Selects(keywords[i], msg))
    decreases |keywords|
  {
    if |keywords| == 0 {
      idx := [];
    } else {
      var n := |keywords| - 1;
      var pre := keywords[..n];
      var prev := KeywordMatchesExactly(pre, msg);
      assert forall j :: 0 <= j < |prev| ==> prev[j] < n;
      if Selects(keywords[n], msg) {
        idx := prev + [n];
      } else {
        idx := prev;
      }
      forall i | 0 <= i < |keywords|
        ensures i in idx <==> Selects(keywords[i], msg)
      {
        if i < n {
          assert pre[i] == keywords[i];
        }
      }
    }
  }

  /** A string is matched exactly when some selecting rule carries it; every match is in the text. */
  lemma KeywordMatchesMembers(keywords: seq<Keyword>, msg: Message, k: string)
    ensures k in KeywordMatches(keywords, msg) <==>
      exists i :: 0 <= i < |keywords| && keywords[i].keyword == k && Selects(keywords[i], msg)
    ensures k in KeywordMatches(keywords, msg) ==> |k| > 0 && Contains(msg.data.post.message, k)
  {
    var idx := KeywordMatchesExactly(keywords, msg);
    var ms := KeywordMatches(keywords, msg);
    if k in ms {
      var j :| 0 <= j < |ms| && ms[j] == k;
      assert idx[j] in idx;
      assert keywords[idx[j]].keyword == k && Selects(keywords[idx[j]], msg);
    }
    if exists i :: 0 <= i < |keywords| && keywords[i].keyword == k && Selects(keywords[i], msg) {
      var i :| 0 <= i < |keywords| && keywords[i].keyword == k && Selects(keywords[i], msg);
      assert i in idx;
      var j :| 0 <= j < |idx| && idx[j] == i;
      assert ms[j] == k;
    }
  }

  /** Keyword matching reads only the text and the topic. */
  lemma {:induction false} KeywordMatchesSameText(keywords: seq<Keyword>, a: Message, b: Message)
    requires a.data.post.message == b.data.post.message && a.data.topic.id == b.data.topic.id
    ensures KeywordMatches(keywords, a) == KeywordMatches(keywords, b)
    decreases |keywords|
  {
    if |keywords| > 0 {
      KeywordMatchesSameText(keywords[..|keywords| - 1], a, b);
    }
  }

  /** A keyword given on the command line is matched in every topic. */
  lemma FlagKeywordMatchesAnyTopic(keywords: seq<Keyword>, flagKeywords: seq<string>, msg: Message, i: int)
    requires 0 <= i < |flagKeywords|
    requires |flagKeywords[i]| > 0 && Contains(msg.data.post.message, flagKeywords[i])
    ensures flagKeywords[i] in KeywordMatches(WithFlagKeywords(keywords, flagKeywords), msg)
  {
    var merged := WithFlagKeywords(keywords, flagKeywords);
    assert merged[|keywords| + i] == Keyword(flagKeywords[i], 0);
    KeywordMatchesMembers(merged, msg, flagKeywords[i]);
  }

  /** Two rules with the same keyword, one unscoped and one for topic 7, both match in topic 7. */
  lemma DuplicateKeywordsKept(msg: Message)
    requires Contains(msg.data.post.message, "urgent")
    ensures KeywordMatches([Keyword("urgent", 0), Keyword("urgent", 7)], msg)
      == if msg.data.topic.id == 7 then ["urgent", "urgent"] else ["urgent"]
  {
    var rules := [Keyword("urgent", 0), Keyword("urgent", 7)];
    assert rules[..1][..0] == [];
    assert rules[..1] == [Keyword("urgent", 0)];
  }

  /** Why a message was dropped: the first check it failed. */
  datatype Reason =
    | OtherSpace | OtherType | OwnNotifyTopic | MentionsMe
    | Direct | FromBot | FromIgnoredUser | NoKeywordMatch

  datatype Decision = Drop(reason: Reason) | Notify(matches: seq<string>)

  /** Position of each check in the handler's chain. */
  function Rank(r: Reason): nat {
    match r
    case OtherSpace => 0
    case OtherType => 1
    case OwnNotifyTopic => 2
    case MentionsMe => 3
    case Direct => 4
    case FromBot => 5
    case FromIgnoredUser => 6
    case NoKeywordMatch => 7
  }

  /** The message fails the check named by `r`. */
  predicate Fails(r: Reason, config: Config, me: string, msg: Message) {
    match r
    case OtherSpace => !InTargetSpace(config, msg)
    case OtherType => !IsPostMessage(msg)
    case OwnNotifyTopic => IsNotifyTopic(config, msg)
    case MentionsMe => IsMention(me, msg)
    case Direct => IsDM(msg)
    case FromBot => IsBot(config, msg)
    case FromIgnoredUser => IgnoredUser(config, msg)
    case NoKeywordMatch => KeywordMatches(config.keywords, msg) == []
  }

  /** The handler's chain of checks, as a decision. */
  function Classify(config: Config, me: string, msg: Message): Decision {
    if !InTargetSpace(config, msg) then Drop(OtherSpace)
    else if !IsPostMessage(msg) then Drop(OtherType)
    else if IsNotifyTopic(config, msg) then Drop(OwnNotifyTopic)
    else if IsMention(me, msg) then Drop(MentionsMe)
    else if IsDM(msg) then Drop(Direct)
    else if IsBot(config, msg) then Drop(FromBot)
    else if IgnoredUser(config, msg) then Drop(FromIgnoredUser)
    else
      var matches := KeywordMatches(config.keywords, msg);
      if |matches| == 0 then Drop(NoKeywordMatch) else Notify(matches)
  }

  /** A message is dropped for a reason exactly when that check fails and every earlier one passes. */
  lemma ClassifyFirstFailure(config: Config, me: string, msg: Message, r: Reason)
    ensures Classify(config, me, msg) == Drop(r) <==>
      Fails(r, config, me, msg) && forall q :: Rank(q) < Rank(r) ==> !Fails(q, config, me, msg)
  {
    assert Rank(OtherSpace) == 0 && Rank(OtherType) == 1 && Rank(OwnNotifyTopic) == 2 && Rank(MentionsMe) == 3;
    assert Rank(Direct) == 4 && Rank(FromBot) == 5 && Rank(FromIgnoredUser) == 6 && Rank(NoKeywordMatch) == 7;
  }

  /** A message is notified exactly when it passes every check, with the selecting keywords as matches. */
  lemma ClassifyNotify(config: Config, me: string, msg: Message)
    ensures Classify(config, me, msg).Notify? <==> forall q :: !Fails(q, config, me, msg)
    ensures Classify(config, me, msg).Notify? ==>
      Classify(config, me, msg).matches == KeywordMatches(config.keywords, msg) != []
  {
    if Classify(config, me, msg).Notify? {
      forall q ensures !Fails(q, config, me, msg) {
        match q
        case OtherSpace =>
        case OtherType =>
        case OwnNotifyTopic =>
        case MentionsMe =>
        case Direct =>
        case FromBot =>
        case FromIgnoredUser =>
        case NoKeywordMatch =>
      }
    } else {
      assert Fails(Classify(config, me, msg).reason, config, me, msg);
    }
  }
}
