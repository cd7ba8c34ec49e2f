/**
 * The configuration the notifier runs with (the global `config` of the Go
 * program, here passed explicitly), the merge of keywords given on the command
 * line into it, and the OAuth scope requested at start-up.
 */
module Settings {
  import opened Strings

  /** A watched keyword; a `topicID` of 0 or less means "in any topic". */
  datatype Keyword = Keyword(keyword: string, topicID: int)

  datatype Config = Config(
    debug: bool,
    clientID: string,
    clientSecret: string,
    notifyDesktop: bool,
    notifyTypetalk: int,       // topic to repost into; 0 or less disables reposting
    withMention: bool,
    spaceKeys: seq<string>,
    keywords: seq<Keyword>,
    ignoreBot: bool,
    ignoreUsers: seq<string>)

  /** The configured keywords followed by the command-line ones, each of those unscoped. */
  function WithFlagKeywords(keywords: seq<Keyword>, flagKeywords: seq<string>): (merged: seq<Keyword>)
    ensures |merged| == |keywords| + |flagKeywords|
    ensures merged[..|keywords|] == keywords
    ensures forall i :: 0 <= i < |flagKeywords| ==> merged[|keywords| + i] == Keyword(flagKeywords[i], 0)
    decreases |flagKeywords|
  {
    if |flagKeywords| == 0 then keywords
    else
      var n := |flagKeywords| - 1;
      WithFlagKeywords(keywords, flagKeywords[..n]) + [Keyword(flagKeywords[n], 0)]
  }

  /** The start-up loop that appends each command-line keyword to the configured list. */
  method AppendFlagKeywords(keywords: seq<Keyword>, flagKeywords: seq<string>) returns (merged: seq<Keyword>)
    ensures merged == WithFlagKeywords(keywords, flagKeywords)
  {
    merged := keywords;
    for i := 0 to |flagKeywords|
      invariant merged == WithFlagKeywords(keywords, flagKeywords[..i])
    {
      assert flagKeywords[..i + 1][..i] == flagKeywords[..i];
      merged := merged + [Keyword(flagKeywords[i], 0)];
    }
    assert flagKeywords[..|flagKeywords|] == flagKeywords;
  }

  /** The scope tokens requested for a given repost topic. */
  function ScopeTokens(notifyTypetalk: int): seq<string>
  {
    ["my", "topic.read"] + (if notifyTypetalk > 0 then ["topic.post"] else [])
  }

  /**
   * The OAuth scope requested: reading is always asked for, posting only when
   * reposting to a topic is enabled.
   */
  function OAuthScope(notifyTypetalk: int): (scope: string)
    ensures Split(scope, ' ') == ScopeTokens(notifyTypetalk)
    ensures "topic.post" in Split(scope, ' ') <==> notifyTypetalk > 0
  {
    var base := "my topic.read";
    var scope := if notifyTypetalk > 0 then base + " topic.post" else base;
    ScopeIsJoined(notifyTypetalk, scope);
    scope
  }

  lemma ScopeIsJoined(notifyTypetalk: int, scope: string)
    requires scope == if notifyTypetalk > 0 then "my topic.read" + " topic.post" else "my topic.read"
    ensures Split(scope, ' ') == ScopeTokens(notifyTypetalk)
  {
    var tokens := ScopeTokens(notifyTypetalk);
    if notifyTypetalk > 0 {
      assert Join(tokens[2..], ' ') == "topic.post";
      assert Join(tokens[1..], ' ') == "topic.read" + " " + "topic.post";
    } else {
      assert Join(tokens[1..], ' ') == "topic.read";
    }
    assert scope == Join(tokens, ' ');
    SplitJoin(tokens, ' ');
  }
}
