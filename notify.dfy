/**
 * The stream handler: runs the checks of module Filter in order and, for a
 * message that passes them all, sends a desktop alert and a repost to a
 * Typetalk topic.  The two sinks are abstract: the handler returns the calls
 * it makes to them, in order.
 */
module Notify {
  import opened Wrappers
  import opened Strings
  import opened Decimal
  import opened Stream
  import opened Settings
  import opened Filter

  const URLPrefix: string := "https://typetalk.com/topics/"
  const PostsSegment: string := "/posts/"

  /** The web address of a post. */
  function PostURL(topicID: int, postID: int): (url: string)
    ensures URLPrefix <= url
    ensures '\n' !in url
  {
    var t, p := FormatInt(topicID), FormatInt(postID);
    assert '\n' !in t && '\n' !in p;
    URLPrefix + t + PostsSegment + p
  }

  /** Reads the topic and post ids back out of a post address. */
  function ParsePostURL(url: string): Option<(int, int)>
  {
    if !(URLPrefix <= url) then None
    else
      var rest := url[|URLPrefix|..];
      var i := IndexOf(rest, '/');
      if !(PostsSegment <= rest[i..]) then None
      else
        match (ParseInt(rest[..i]), ParseInt(rest[i + |PostsSegment|..]))
        case (Some(t), Some(p)) => Some((t, p))
        case _ => None
  }

  /** A post address names its topic and post unambiguously. */
  lemma PostURLRoundTrip(topicID: int, postID: int)
    ensures ParsePostURL(PostURL(topicID, postID)) == Some((topicID, postID))
  {
    var t, p := FormatInt(topicID), FormatInt(postID);
    var url := PostURL(topicID, postID);
    var rest := t + PostsSegment + p;
    assert url[|URLPrefix|..] == rest;
    assert '/' !in t;
    assert rest == t + ['/'] + ("posts/" + p);
    IndexOfAfter(t, '/', "posts/" + p);
    assert rest[..|t|] == t;
    assert rest[|t|..] == PostsSegment + p;
    assert rest[|t| + |PostsSegment|..] == p;
    ParseFormatInt(topicID);
    ParseFormatInt(postID);
  }

  /** One call the handler makes to a sink, or the error it logs. */
  datatype Effect =
    | DesktopNotify(title: string, body: string)     // beeep.Notify
    | PostMessage(topicID: int, body: string)         // api.Messages.PostMessage
    | RepostFailed                                    // printError after PostMessage fails

  function DesktopBody(url: string, message: string): string {
    url + "\n" + message
  }

  function MentionLine(withMention: bool, me: string): string {
    if withMention then "@" + me + " by tegofy" else ""
  }

  function RepostBody(url: string, matches: seq<string>, withMention: bool, me: string): string {
    url + "\n" + "matches: " + FormatSlice(matches) + "\n" + MentionLine(withMention, me)
  }

  /** The sink calls for a message that was selected with `matches`. */
  function Compose(config: Config, me: string, msg: Message, matches: seq<string>, postError: bool): seq<Effect> {
    var url := PostURL(msg.data.topic.id, msg.data.post.id);
    (if config.notifyDesktop then [DesktopNotify(msg.data.topic.name, DesktopBody(url, msg.data.post.message))] else [])
    + (if config.notifyTypetalk > 0 then
         [PostMessage(config.notifyTypetalk, RepostBody(url, matches, config.withMention, me))]
         + (if postError then [RepostFailed] else [])
       else [])
  }

  /** Everything the handler does with one message; `postError` is the repost call's outcome. */
  function Effects(config: Config, me: string, msg: Message, postError: bool): seq<Effect> {
    match Classify(config, me, msg)
    case Drop(_) => []
    case Notify(matches) => Compose(config, me, msg, matches, postError)
  }

  /**
   * The handler `notify` returns: the checks in order, each failure ending
   * the call, then the two bodies built with a `strings.Builder`.
   */
  method Handle(config: Config, me: string, msg: Message, postError: bool) returns (effects: seq<Effect>)
    ensures effects == Effects(config, me, msg, postError)
  {
    effects := [];
    var target := IsTargetSpace(config, msg);
    if !target {
      return;
    }
    if !IsPostMessage(msg) {
      return;
    }
    if IsNotifyTopic(config, msg) {
      return;
    }
    if IsMention(me, msg) {
      return;
    }
    if IsDM(msg) {
      return;
    }
    if IsBot(config, msg) {
      return;
    }
    var ignored := IsIgnoreUser(config, msg);
    if ignored {
      return;
    }
    var matches := ContainsKeyWords(config, msg);
    if |matches| == 0 {
      return;
    }

    assert Classify(config, me, msg) == Notify(matches);
    var postURL := PostURL(msg.data.topic.id, msg.data.post.id);

    if config.notifyDesktop {
      var body := WriteDesktopBody(postURL, msg.data.post.message);
      effects := effects + [DesktopNotify(msg.data.topic.name, body)];
    }

    if config.notifyTypetalk > 0 {
      var body := WriteRepostBody(postURL, matches, config.withMention, me);
      effects := effects + [PostMessage(config.notifyTypetalk, body)];
      if postError {
        effects := effects + [RepostFailed];
      }
    }
  }

  /** The desktop alert's text, written piece by piece. */
  method WriteDesktopBody(postURL: string, message: string) returns (body: string)
    ensures body == DesktopBody(postURL, message)
  {
    var post := new Builder();
    post.WriteString(postURL);
    post.WriteString("\n");
    post.WriteString(message);
    body := post.String();
  }

  /** The repost's text, written piece by piece. */
  method WriteRepostBody(postURL: string, matches: seq<string>, withMention: bool, me: string) returns (body: string)
    ensures body == RepostBody(postURL, matches, withMention, me)
  {
    var post := new Builder();
    post.WriteString(postURL);
    post.WriteString("\n");
    post.WriteString("matches: " + FormatSlice(matches));
    post.WriteString("\n");
    if withMention {
      post.WriteString("@" + me + " by tegofy");
    }
    body := post.String();
  }

  /** The handler sends something only for a message that passed every check. */
  lemma EffectsOnlyWhenSelected(config: Config, me: string, msg: Message, postError: bool)
    ensures Effects(config, me, msg, postError) != [] ==>
      && InTargetSpace(config, msg) && IsPostMessage(msg) && !IsNotifyTopic(config, msg)
      && !IsMention(me, msg) && !IsDM(msg) && !IsBot(config, msg) && !IgnoredUser(config, msg)
      && KeywordMatches(config.keywords, msg) != []
    ensures Classify(config, me, msg).Notify? && (config.notifyDesktop || config.notifyTypetalk > 0) ==>
      Effects(config, me, msg, postError) != []
  {
  }

  /**
   * Messages the guards reject produce nothing: no configured space, no
   * space on the message, the repost topic itself, an empty account name
   * (which every text contains), or a direct message.
   */
  lemma FailsClosed(config: Config, me: string, msg: Message, postError: bool)
    ensures config.spaceKeys == [] ==> Effects(config, me, msg, postError) == []
    ensures msg.data.space.None? ==> Effects(config, me, msg, postError) == []
    ensures !IsPostMessage(msg) ==> Effects(config, me, msg, postError) == []
    ensures config.notifyTypetalk > 0 && msg.data.topic.id == config.notifyTypetalk ==>
      Effects(config, me, msg, postError) == []
    ensures me == "" ==> Effects(config, me, msg, postError) == []
    ensures msg.data.directMessage.Some? ==> Effects(config, me, msg, postError) == []
  {
    ContainsEmpty(msg.data.post.message);
  }

  /** `isMention` is substring containment of the account name, case-sensitive. */
  lemma MentionIsSubstring(me: string, msg: Message)
    ensures IsMention(me, msg) <==> exists i :: OccursAt(msg.data.post.message, me, i)
  {
    ContainsIffOccurs(msg.data.post.message, me);
  }

  /** With bots not ignored, whether the author is a bot changes nothing. */
  lemma BotFlagIgnoredUnlessConfigured(config: Config, me: string, msg: Message, isBot: bool, postError: bool)
    requires !config.ignoreBot
    ensures var other := msg.(data := msg.data.(post := msg.data.post.(account := msg.data.post.account.(isBot := isBot))));
      Effects(config, me, other, postError) == Effects(config, me, msg, postError)
  {
    var other := msg.(data := msg.data.(post := msg.data.post.(account := msg.data.post.account.(isBot := isBot))));
    assert KeywordMatches(config.keywords, other) == KeywordMatches(config.keywords, msg) by {
      KeywordMatchesSameText(config.keywords, msg, other);
    }
  }

  /**
   * The desktop alert is sent exactly for a selected message when desktop
   * alerts are on; it comes first, is titled with the topic name, and its
   * first line is the post address and the remaining lines the whole message.
   */
  lemma DesktopAlert(config: Config, me: string, msg: Message, postError: bool)
    ensures (exists e :: e in Effects(config, me, msg, postError) && e.DesktopNotify?) <==>
      Classify(config, me, msg).Notify? && config.notifyDesktop
    ensures Classify(config, me, msg).Notify? && config.notifyDesktop ==>
      var e := Effects(config, me, msg, postError)[0];
      && e.DesktopNotify?
      && e.title == msg.data.topic.name
      && Split(e.body, '\n') == [PostURL(msg.data.topic.id, msg.data.post.id)] + Split(msg.data.post.message, '\n')
      && e.body[|PostURL(msg.data.topic.id, msg.data.post.id)| + 1..] == msg.data.post.message
  {
    var url := PostURL(msg.data.topic.id, msg.data.post.id);
    SplitAfter(url, '\n', msg.data.post.message);
    var effects := Effects(config, me, msg, postError);
    if Classify(config, me, msg).Notify? && config.notifyDesktop {
      assert effects[0] in effects;
    }
  }

  /**
   * The repost is sent exactly for a selected message when a positive repost
   * topic is configured, to that topic and never to the topic of the message
   * that caused it.
   */
  lemma RepostTarget(config: Config, me: string, msg: Message, postError: bool)
    ensures (exists e :: e in Effects(config, me, msg, postError) && e.PostMessage?) <==>
      Classify(config, me, msg).Notify? && config.notifyTypetalk > 0
    ensures forall e :: e in Effects(config, me, msg, postError) && e.PostMessage? ==>
      e.topicID == config.notifyTypetalk > 0 && e.topicID != msg.data.topic.id
    ensures forall e :: e in Effects(config, me, msg, postError) && e.PostMessage? ==>
      e.body == RepostBody(PostURL(msg.data.topic.id, msg.data.post.id),
                           KeywordMatches(config.keywords, msg), config.withMention, me)
  {
    var effects := Effects(config, me, msg, postError);
    if Classify(config, me, msg).Notify? && config.notifyTypetalk > 0 {
      var i := if config.notifyDesktop then 1 else 0;
      assert effects[i] in effects && effects[i].PostMessage?;
    }
  }

  /**
   * The repost has three lines: the post address, the matched keywords as Go
   * prints a `[]string`, and the mention of the signed-in account or nothing.
   * Keywords without spaces can be read back from the middle line.
   */
  lemma RepostLayout(url: string, matches: seq<string>, withMention: bool, me: string)
    requires '\n' !in url && '\n' !in me
    requires forall k :: 0 <= k < |matches| ==> '\n' !in matches[k]
    ensures Split(RepostBody(url, matches, withMention, me), '\n')
      == [url, "matches: " + FormatSlice(matches), MentionLine(withMention, me)]
    ensures withMention ==> MentionLine(withMention, me) == "@" + me + " by tegofy"
    ensures !withMention ==> MentionLine(withMention, me) == ""
    ensures |matches| > 0 && (forall k :: 0 <= k < |matches| ==> ' ' !in matches[k]) ==>
      Split(FormatSlice(matches)[1..|FormatSlice(matches)| - 1], ' ') == matches
  {
    var line2 := "matches: " + FormatSlice(matches);
    var line3 := MentionLine(withMention, me);
    assert '\n' !in Join(matches, ' ') by {
      JoinKeepsOut(matches, ' ', '\n');
    }
    assert '\n' !in line2 by {
      assert line2 == "matches: [" + Join(matches, ' ') + "]";
    }
    assert '\n' !in line3;
    SplitAfter(line2, '\n', line3);
    assert Split(line3, '\n') == [line3];
    assert RepostBody(url, matches, withMention, me) == url + "\n" + (line2 + "\n" + line3);
    SplitAfter(url, '\n', line2 + "\n" + line3);
    if |matches| > 0 && (forall k :: 0 <= k < |matches| ==> ' ' !in matches[k]) {
      FormatSliceRoundTrip(matches);
    }
  }

  /** A failed repost is only logged: every other call is made as it would have been. */
  lemma RepostErrorOnlyLogged(config: Config, me: string, msg: Message)
    ensures Effects(config, me, msg, true) == Effects(config, me, msg, false) +
      (if Classify(config, me, msg).Notify? && config.notifyTypetalk > 0 then [RepostFailed] else [])
  {
  }
}
