/**
 * The wildcard filter of `MqttService.removeAll`, as `topicToRegex` translates it into a
 * Java regular expression and `Matcher.matches` applies it to a whole topic:
 *   `/` becomes the escaped `\/`, which matches `/` itself;
 *   `#` becomes `.*`, a possibly empty run of characters other than line terminators;
 *   `+` becomes `[^/]+`, a non-empty run of characters other than `/`.
 * Every other character of the filter stands for itself.
 */
module TopicFilter {
  import opened Strings

  /** One element of the translated pattern. */
  datatype Token = Lit(c: char) | AnyRun | LevelRun

  /** The characters `.` refuses in a Java pattern without `DOTALL`. */
  predicate IsLineTerminator(c: char) {
    c == '\n' || c == '\r' || c == '\U{85}' || c == '\U{2028}' || c == '\U{2029}'
  }

  predicate NoLineTerminators(s: string) {
    forall i :: 0 <= i < |s| ==> !IsLineTerminator(s[i])
  }

  predicate NoSlash(s: string) {
    forall i :: 0 <= i < |s| ==> s[i] != '/'
  }

  /** A filter with neither wildcard. */
  predicate IsPlain(filter: string) {
    forall i :: 0 <= i < |filter| ==> filter[i] != '#' && filter[i] != '+'
  }

  function TranslateChar(c: char): Token {
    if c == '#' then AnyRun else if c == '+' then LevelRun else Lit(c)
  }

  /** `topicToRegex`: one token per filter character, in order. */
  function TopicToRegex(filter: string): (r: seq<Token>)
    ensures |r| == |filter|
    ensures forall i :: 0 <= i < |filter| ==> r[i] == TranslateChar(filter[i])
    decreases |filter|
  {
    if filter == [] then [] else [TranslateChar(filter[0])] + TopicToRegex(filter[1..])
  }

  /** The pattern `p` matches the whole of `t`. */
  predicate Matches(p: seq<Token>, t: string)
    decreases |t|, |p|
  {
    if p == [] then t == []
    else match p[0]
      case Lit(c) => |t| > 0 && t[0] == c && Matches(p[1..], t[1..])
      case AnyRun =>
        Matches(p[1..], t) || (|t| > 0 && !IsLineTerminator(t[0]) && Matches(p, t[1..]))
      case LevelRun =>
        |t| > 0 && t[0] != '/' && (Matches(p[1..], t[1..]) || Matches(p, t[1..]))
  }

  /** `topicRegex.matcher(topic).matches()`. */
  predicate TopicMatches(filter: string, topic: string) {
    Matches(TopicToRegex(filter), topic)
  }

  // ------------------------------------------------------------------
  // What the translated tokens match
  // ------------------------------------------------------------------

  /** A run of literal tokens matches exactly its own characters, then hands over. */
  lemma {:induction false} LiteralPrefix(s: string, p: seq<Token>, t: string)
    requires IsPlain(s)
    ensures Matches(TopicToRegex(s) + p, t) <==> StartsWith(t, s) && Matches(p, t[|s|..])
    decreases |s|
  {
    if s != [] {
      var q := TopicToRegex(s) + p;
      assert q[0] == Lit(s[0]);
      assert q[1..] == TopicToRegex(s[1..]) + p;
      if |t| > 0 && t[0] == s[0] {
        LiteralPrefix(s[1..], p, t[1..]);
        if |s| <= |t| {
          assert t[1..][|s| - 1..] == t[|s|..];
          assert t[..|s|] == [t[0]] + t[1..][..|s| - 1];
        }
        assert StartsWith(t, s) <==> StartsWith(t[1..], s[1..]);
      }
    } else {
      assert TopicToRegex(s) + p == p;
      assert t[0..] == t;
    }
  }

  /** `#` matches a possibly empty run without line terminators, then hands over. */
  lemma {:induction false} AnyRunSplits(p: seq<Token>, t: string)
    ensures Matches([AnyRun] + p, t) <==>
            exists k :: 0 <= k <= |t| && NoLineTerminators(t[..k]) && Matches(p, t[k..])
    decreases |t|
  {
    var q := [AnyRun] + p;
    assert q[0] == AnyRun && q[1..] == p;
    assert t[0..] == t && t[..0] == [];
    if |t| > 0 {
      AnyRunSplits(p, t[1..]);
      var u := t[1..];
      if Matches(q, t) && !Matches(p, t) {
        var k :| 0 <= k <= |u| && NoLineTerminators(u[..k]) && Matches(p, u[k..]);
        assert t[..k + 1] == [t[0]] + u[..k];
        assert t[k + 1..] == u[k..];
      }
      if exists k :: 0 <= k <= |t| && NoLineTerminators(t[..k]) && Matches(p, t[k..]) {
        var k :| 0 <= k <= |t| && NoLineTerminators(t[..k]) && Matches(p, t[k..]);
        if k > 0 {
          assert t[..k][0] == t[0];
          assert u[..k - 1] == t[..k][1..];
          assert u[k - 1..] == t[k..];
        }
      }
    }
  }

  /** `+` matches a non-empty run without `/`, then hands over. */
  lemma {:induction false} LevelRunSplits(p: seq<Token>, t: string)
    ensures Matches([LevelRun] + p, t) <==>
            exists k :: 1 <= k <= |t| && NoSlash(t[..k]) && Matches(p, t[k..])
    decreases |t|
  {
    var q := [LevelRun] + p;
    assert q[0] == LevelRun && q[1..] == p;
    if |t| > 0 {
      LevelRunSplits(p, t[1..]);
      var u := t[1..];
      if Matches(q, t) {
        if Matches(p, u) {
          assert t[..1] == [t[0]] && t[1..] == u;
        } else {
          var k :| 1 <= k <= |u| && NoSlash(u[..k]) && Matches(p, u[k..]);
          assert t[..k + 1] == [t[0]] + u[..k];
          assert t[k + 1..] == u[k..];
        }
      }
      if exists k :: 1 <= k <= |t| && NoSlash(t[..k]) && Matches(p, t[k..]) {
        var k :| 1 <= k <= |t| && NoSlash(t[..k]) && Matches(p, t[k..]);
        assert t[..k][0] == t[0];
        if k > 1 {
          assert u[..k - 1] == t[..k][1..];
          assert u[k - 1..] == t[k..];
        } else {
          assert t[k..] == u;
        }
      }
    }
  }

  // ------------------------------------------------------------------
  // Consequences for whole filters
  // ------------------------------------------------------------------

  /**
   * A filter with no wildcard matches only the identical topic. This holds for the
   * translation as modelled here, where every character other than `#` and `+` is a
   * literal; to `Pattern.compile`, a filter holding `.`, `*`, `$` or a bracket would
   * mean something else.
   */
  lemma PlainMatchesOnlyItself(filter: string, topic: string)
    requires IsPlain(filter)
    ensures TopicMatches(filter, topic) <==> topic == filter
  {
    LiteralPrefix(filter, [], topic);
    assert TopicToRegex(filter) + [] == TopicToRegex(filter);
    if StartsWith(topic, filter) && topic[|filter|..] == [] {
      assert topic == topic[..|filter|] + topic[|filter|..];
    }
    if topic == filter {
      assert topic[..|filter|] == filter;
    }
  }

  /** A trailing `#` matches every topic that starts with the prefix and has no line terminator after it. */
  lemma PrefixThenHash(prefix: string, topic: string)
    requires IsPlain(prefix)
    ensures TopicMatches(prefix + "#", topic) <==>
            StartsWith(topic, prefix) && NoLineTerminators(topic[|prefix|..])
  {
    TranslateAppend(prefix, "#");
    assert TopicToRegex("#") == [AnyRun];
    LiteralPrefix(prefix, [AnyRun], topic);
    if |prefix| > |topic| {
      return;
    }
    var rest := topic[|prefix|..];
    AnyRunSplits([], rest);
    assert [AnyRun] + [] == [AnyRun];
    if NoLineTerminators(rest) {
      assert rest[..|rest|] == rest && rest[|rest|..] == [];
    }
    if exists k :: 0 <= k <= |rest| && NoLineTerminators(rest[..k]) && Matches([], rest[k..]) {
      var k :| 0 <= k <= |rest| && NoLineTerminators(rest[..k]) && Matches([], rest[k..]);
      assert rest[..k] == rest;
    }
  }

  /** A lone `+` matches exactly the non-empty topics without `/`. */
  lemma LoneLevelRun(topic: string)
    ensures TopicMatches("+", topic) <==> |topic| > 0 && NoSlash(topic)
  {
    assert TopicToRegex("+") == [LevelRun] + [];
    LevelRunSplits([], topic);
    if |topic| > 0 && NoSlash(topic) {
      assert topic[..|topic|] == topic && topic[|topic|..] == [];
    }
    if exists k :: 1 <= k <= |topic| && NoSlash(topic[..k]) && Matches([], topic[k..]) {
      var k :| 1 <= k <= |topic| && NoSlash(topic[..k]) && Matches([], topic[k..]);
      assert topic[..k] == topic;
    }
  }

  lemma {:induction false} TranslateAppend(a: string, b: string)
    ensures TopicToRegex(a + b) == TopicToRegex(a) + TopicToRegex(b)
    decreases |a|
  {
    if a == [] {
      assert a + b == b;
    } else {
      assert (a + b)[0] == a[0] && (a + b)[1..] == a[1..] + b;
      TranslateAppend(a[1..], b);
    }
  }

  /**
   * Where this translation departs from the wildcards of section 4.7.1 of the MQTT
   * Version 5.0 OASIS Standard: `a/#` does not match the parent level `a`, `+` does not
   * match an empty level, and `+` does not span levels.
   */
  lemma DepartsFromMqttWildcards()
    ensures TopicMatches("a/#", "a/b/c")
    ensures !TopicMatches("a/#", "a")
    ensures !TopicMatches("a/+", "a/")
    ensures !TopicMatches("+", "a/b")
  {
    assert IsPlain("a/");
    assert "a/#" == "a/" + "#";
    PrefixThenHash("a/", "a/b/c");
    assert "a/b/c"[..2] == "a/";
    assert "a/b/c"[2..] == "b/c";
    PrefixThenHash("a/", "a");
    TranslateAppend("a/", "+");
    assert "a/+" == "a/" + "+";
    assert TopicToRegex("+") == [LevelRun];
    LiteralPrefix("a/", [LevelRun], "a/");
    LevelRunSplits([], "a/"[2..]);
    LoneLevelRun("a/b");
    assert "a/b"[1] == '/';
  }

  // ------------------------------------------------------------------
  // The stream filter over collected topics
  // ------------------------------------------------------------------

  /** The topics of `topics` that the filter matches, in their order. */
  function Matching(topics: seq<string>, filter: string): seq<string>
    decreases |topics|
  {
    if topics == [] then []
    else
      var last := topics[|topics| - 1];
      Matching(topics[..|topics| - 1], filter) + (if TopicMatches(filter, last) then [last] else [])
  }

  /** The filter distributes over concatenation: it keeps order, and repeats, of its input. */
  lemma {:induction false} MatchingAppend(a: seq<string>, b: seq<string>, filter: string)
    ensures Matching(a + b, filter) == Matching(a, filter) + Matching(b, filter)
    decreases |b|
  {
    if b == [] {
      assert a + b == a;
    } else {
      var init := b[..|b| - 1];
      var last := b[|b| - 1];
      assert (a + b)[..|a + b| - 1] == a + init;
      assert (a + b)[|a + b| - 1] == last;
      MatchingAppend(a, init, filter);
    }
  }

  /** A single topic is kept exactly when the filter matches it. */
  lemma MatchingSingle(t: string, filter: string)
    ensures Matching([t], filter) == if TopicMatches(filter, t) then [t] else []
  {
    assert [t][..0] == [];
  }

  /** Exactly the matching topics are kept, and the filter never adds one. */
  lemma {:induction false} MatchingSpec(topics: seq<string>, filter: string)
    ensures |Matching(topics, filter)| <= |topics|
    ensures forall t :: t in Matching(topics, filter) <==> t in topics && TopicMatches(filter, t)
    decreases |topics|
  {
    if topics != [] {
      var init := topics[..|topics| - 1];
      MatchingSpec(init, filter);
      assert topics == init + [topics[|topics| - 1]];
    }
  }
}
