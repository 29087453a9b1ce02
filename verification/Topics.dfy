/** Topic filters of the MQTT helpers, compared with section 4.7.1 of MQTT Version 3.1.1, and the
    way a branch message's topic is taken apart. */
module Topics {
  import opened Basics

  // ----- Levels -----

  /** `s.Split('/')`. */
  function Split(s: string): (levels: seq<string>)
    ensures |levels| >= 1
  {
    if s == "" then [""]
    else if s[0] == '/' then [""] + Split(s[1..])
    else var rest := Split(s[1..]); [[s[0]] + rest[0]] + rest[1..]
  }

  /** `string.Join('/', levels)`. */
  function Join(levels: seq<string>): string {
    if levels == [] then "" else if |levels| == 1 then levels[0] else levels[0] + "/" + Join(levels[1..])
  }

  predicate SlashFree(s: string) {
    '/' !in s
  }

  lemma {:induction false} SplitSlashFree(s: string)
    requires SlashFree(s)
    ensures Split(s) == [s]
  {
    if s != "" {
      SplitSlashFree(s[1..]);
      assert s == [s[0]] + s[1..];
    }
  }

  lemma {:induction false} SplitConcat(a: string, b: string)
    ensures Split(a + "/" + b) == Split(a) + Split(b)
  {
    var s := a + "/" + b;
    if a == "" {
      assert s[0] == '/' && s[1..] == b;
    } else {
      assert s[0] == a[0] && s[1..] == a[1..] + "/" + b;
      SplitConcat(a[1..], b);
    }
  }

  lemma {:induction false} JoinSplit(s: string)
    ensures Join(Split(s)) == s
  {
    if s != "" {
      var rest := Split(s[1..]);
      JoinSplit(s[1..]);
      assert s == [s[0]] + s[1..];
      if s[0] == '/' {
        assert ([""] + rest)[1..] == rest;
      } else {
        var levels := Split(s);
        assert levels[1..] == rest[1..];
      }
    }
  }

  lemma {:induction false} JoinConcat(xs: seq<string>, ys: seq<string>)
    requires xs != [] && ys != []
    ensures Join(xs + ys) == Join(xs) + "/" + Join(ys)
  {
    if |xs| == 1 {
      assert (xs + ys)[1..] == ys;
    } else {
      assert (xs + ys)[1..] == xs[1..] + ys;
      JoinConcat(xs[1..], ys);
    }
  }

  lemma SplitInjective(s: string, t: string)
    requires Split(s) == Split(t)
    ensures s == t
  {
    JoinSplit(s);
    JoinSplit(t);
  }

  // ----- Matching -----

  /** Level by level, as the standard has it: `+` takes any one level, a final `#` the parent level
      and everything below. */
  predicate StandardMatches(filter: seq<string>, topic: seq<string>) {
    if filter == [] then topic == []
    else if filter == ["#"] then true
    else topic != [] && (filter[0] == "+" || filter[0] == topic[0]) && StandardMatches(filter[1..], topic[1..])
  }

  predicate LevelMatches(part: string, level: string) {
    part == "+" || part == level
  }

  predicate LevelsMatch(parts: seq<string>, levels: seq<string>)
    requires |parts| <= |levels|
  {
    forall k :: 0 <= k < |parts| ==> LevelMatches(parts[k], levels[k])
  }

  /** What the helper decides. */
  predicate Matches(pattern: string, topic: string) {
    if pattern == topic then true
    else if pattern != "" && pattern[|pattern| - 1] == '#' then pattern[..|pattern| - 1] <= topic
    else if '+' in pattern then
      |Split(pattern)| == |Split(topic)| && LevelsMatch(Split(pattern), Split(topic))
    else false
  }

  method TopicMatches(pattern: string, topic: string) returns (r: bool)
    ensures r == Matches(pattern, topic)
  {
    if pattern == topic {
      return true;
    }
    if pattern != "" && pattern[|pattern| - 1] == '#' {
      var prefix := pattern[..|pattern| - 1];
      return prefix <= topic;
    }
    if '+' in pattern {
      var parts := Split(pattern);
      var topicParts := Split(topic);
      if |parts| != |topicParts| {
        return false;
      }
      for i := 0 to |parts|
        invariant forall k :: 0 <= k < i ==> LevelMatches(parts[k], topicParts[k])
      {
        if parts[i] != "+" && parts[i] != topicParts[i] {
          assert !LevelMatches(parts[i], topicParts[i]);
          return false;
        }
      }
      return true;
    }
    return false;
  }

  /** The matching subscriptions, each as often as it was made, in order. */
  function Matching(subscriptions: seq<string>, topic: string): seq<string> {
    if subscriptions == [] then []
    else (if Matches(subscriptions[0], topic) then [subscriptions[0]] else []) + Matching(subscriptions[1..], topic)
  }

  lemma {:induction false} MatchingAppend(xs: seq<string>, ys: seq<string>, topic: string)
    ensures Matching(xs + ys, topic) == Matching(xs, topic) + Matching(ys, topic)
  {
    if xs == [] {
      assert xs + ys == ys;
    } else {
      assert (xs + ys)[1..] == xs[1..] + ys;
      MatchingAppend(xs[1..], ys, topic);
    }
  }

  /** Exactly the matching subscriptions, with their multiplicities, and no two of them swapped: of
      any two that match, the earlier one comes first. */
  lemma {:induction false} MatchingKeeps(subscriptions: seq<string>, topic: string, s: string)
    ensures multiset(Matching(subscriptions, topic))[s] ==
            if Matches(s, topic) then multiset(subscriptions)[s] else 0
  {
    if subscriptions != [] {
      MatchingKeeps(subscriptions[1..], topic, s);
      assert subscriptions == [subscriptions[0]] + subscriptions[1..];
    }
  }

  lemma MatchingTo(subscriptions: seq<string>, i: nat, topic: string)
    requires i < |subscriptions|
    ensures var so, s := Matching(subscriptions[..i], topic), subscriptions[i];
            Matching(subscriptions[..i + 1], topic) == if Matches(s, topic) then so + [s] else so
  {
    MatchingNext(subscriptions[..i], subscriptions[i], topic);
    assert subscriptions[..i + 1] == subscriptions[..i] + [subscriptions[i]];
  }

  lemma {:induction false} MatchingIff(subscriptions: seq<string>, topic: string)
    ensures forall s :: s in Matching(subscriptions, topic) <==> s in subscriptions && Matches(s, topic)
  {
    if subscriptions != [] {
      MatchingIff(subscriptions[1..], topic);
      assert subscriptions == [subscriptions[0]] + subscriptions[1..];
    }
  }

  lemma MatchingInOrder(before: seq<string>, a: string, between: seq<string>, b: string, after: seq<string>,
                        topic: string)
    requires Matches(a, topic) && Matches(b, topic)
    ensures Matching(before + [a] + between + [b] + after, topic) ==
            Matching(before, topic) + [a] + Matching(between, topic) + [b] + Matching(after, topic)
  {
    MatchingNext(before, a, topic);
    MatchingAppend(before + [a], between, topic);
    MatchingNext(before + [a] + between, b, topic);
    MatchingAppend(before + [a] + between + [b], after, topic);
  }

  lemma MatchingNext(subscriptions: seq<string>, s: string, topic: string)
    ensures Matching(subscriptions + [s], topic) ==
            if Matches(s, topic) then Matching(subscriptions, topic) + [s] else Matching(subscriptions, topic)
  {
    MatchingAppend(subscriptions, [s], topic);
    assert [s][1..] == [];
    assert Matching([s], topic) == if Matches(s, topic) then [s] else [];
  }

  /** `HandleMessageReceivedAsync`: the handlers of all matching subscriptions run, in order. */
  method Dispatch(subscriptions: seq<string>, topic: string) returns (handled: seq<string>)
    ensures handled == Matching(subscriptions, topic)
    ensures forall s :: s in handled <==> s in subscriptions && Matches(s, topic)
  {
    handled := [];
    for i := 0 to |subscriptions|
      invariant handled == Matching(subscriptions[..i], topic)
    {
      MatchingTo(subscriptions, i, topic);
      var matches := TopicMatches(subscriptions[i], topic);
      if matches {
        handled := handled + [subscriptions[i]];
      }
    }
    assert subscriptions[..|subscriptions|] == subscriptions;
    MatchingIff(subscriptions, topic);
  }

  // ----- Filters without # -----

  lemma {:induction false} StandardIsLevelwise(filter: seq<string>, topic: seq<string>)
    requires "#" !in filter
    ensures StandardMatches(filter, topic) <==> |filter| == |topic| && LevelsMatch(filter, topic)
  {
    if filter != [] && topic != [] {
      assert filter[0] != "#";
      StandardIsLevelwise(filter[1..], topic[1..]);
      if |filter| == |topic| {
        assert LevelsMatch(filter, topic) <==>
               LevelMatches(filter[0], topic[0]) && LevelsMatch(filter[1..], topic[1..]) by {
          assert forall k :: 1 <= k < |filter| ==> filter[k] == filter[1..][k - 1] && topic[k] == topic[1..][k - 1];
        }
      }
    }
  }

  lemma {:induction false} LevelChars(s: string, c: char)
    requires c != '/'
    ensures c in s <==> exists k :: 0 <= k < |Split(s)| && c in Split(s)[k]
  {
    if s != "" {
      var rest := Split(s[1..]);
      LevelChars(s[1..], c);
      assert c in s <==> c == s[0] || c in s[1..];
      var levels := Split(s);
      if s[0] == '/' {
        assert forall k :: 0 <= k < |rest| ==> levels[k + 1] == rest[k];
      } else {
        assert forall k :: 1 <= k < |rest| ==> levels[k] == rest[k];
        assert c in levels[0] <==> c == s[0] || c in rest[0];
      }
    }
  }

  lemma NotALevel(s: string, c: char)
    requires c != '/' && c !in s
    ensures [c] !in Split(s)
  {
    LevelChars(s, c);
    forall k | 0 <= k < |Split(s)| ensures Split(s)[k] != [c] {
      assert c !in Split(s)[k];
      assert [c][0] == c;
    }
  }

  /** For a filter without `#` the helper decides exactly as the standard does. */
  lemma MatchesIsStandard(pattern: string, topic: string)
    requires '#' !in pattern
    ensures Matches(pattern, topic) <==> StandardMatches(Split(pattern), Split(topic))
  {
    var f, t := Split(pattern), Split(topic);
    NotALevel(pattern, '#');
    StandardIsLevelwise(f, t);
    if '+' !in pattern && |f| == |t| && LevelsMatch(f, t) {
      NotALevel(pattern, '+');
      forall k | 0 <= k < |f| ensures f[k] == t[k] {
        assert LevelMatches(f[k], t[k]);
      }
      assert f == t;
      SplitInjective(pattern, topic);
    }
  }

  // ----- Filters P/# -----

  /** The helper reads P literally: the levels of P must be a strict prefix of the topic's. */
  lemma HashMatchesIff(p: string, topic: string)
    ensures Matches(p + "/#", topic) <==> Split(p) < Split(topic)
  {
    var pattern := p + "/#";
    var prefix := pattern[..|pattern| - 1];
    assert prefix == p + "/";
    if prefix <= topic {
      var rest := topic[|prefix|..];
      assert topic == p + "/" + rest;
      SplitConcat(p, rest);
    }
    if Split(p) < Split(topic) {
      var rest := Split(topic)[|Split(p)|..];
      assert Split(topic) == Split(p) + rest;
      JoinConcat(Split(p), rest);
      JoinSplit(p);
      JoinSplit(topic);
    }
  }

  lemma {:induction false} StandardHash(parts: seq<string>, topic: seq<string>)
    requires "#" !in parts
    ensures StandardMatches(parts + ["#"], topic) <==> |parts| <= |topic| && LevelsMatch(parts, topic)
  {
    var filter := parts + ["#"];
    if parts == [] {
      assert filter == ["#"];
    } else {
      assert filter[1..] == parts[1..] + ["#"];
      assert filter != ["#"];
      if topic != [] {
        StandardHash(parts[1..], topic[1..]);
        if |parts| <= |topic| {
          assert LevelsMatch(parts, topic) <==>
                 LevelMatches(parts[0], topic[0]) && LevelsMatch(parts[1..], topic[1..]) by {
            assert forall k :: 1 <= k < |parts| ==> parts[k] == parts[1..][k - 1] && topic[k] == topic[1..][k - 1];
          }
        }
      }
    }
  }

  /** With no wildcard in P the standard also matches P itself, and that is the only difference. */
  lemma HashVersusStandard(p: string, topic: string)
    requires '#' !in p && '+' !in p
    ensures StandardMatches(Split(p + "/#"), Split(topic)) <==> Matches(p + "/#", topic) || topic == p
  {
    var parts, levels := Split(p), Split(topic);
    NotALevel(p, '#');
    NotALevel(p, '+');
    SplitHash(p);
    StandardHash(parts, levels);
    HashMatchesIff(p, topic);
    if |parts| <= |levels| && LevelsMatch(parts, levels) {
      forall k | 0 <= k < |parts| ensures parts[k] == levels[k] {
        assert LevelMatches(parts[k], levels[k]);
      }
      assert parts <= levels;
      if |parts| == |levels| {
        assert parts == levels;
        SplitInjective(p, topic);
      }
    } else {
      assert parts <= levels ==> LevelsMatch(parts, levels);
    }
  }

  /** With a `+` in P the helper matches no topic name at all, whatever the standard says. */
  lemma PlusBeforeHashNeverMatches(p: string, topic: string)
    requires '+' in p && '+' !in topic
    ensures !Matches(p + "/#", topic)
  {
    var pattern := p + "/#";
    var prefix := pattern[..|pattern| - 1];
    assert prefix == p + "/" && '+' in prefix;
    PrefixChars(prefix, topic, '+');
  }

  /** The helper decides as the standard does on `P/#` if and only if P is literally a strict prefix
      of the topic, or the standard does not match either. */
  lemma HashAgreesIff(p: string, topic: string)
    requires '#' !in p
    ensures var parts, levels := Split(p), Split(topic);
            (Matches(p + "/#", topic) <==> StandardMatches(Split(p + "/#"), levels)) <==>
            parts < levels || |parts| > |levels| || !LevelsMatch(parts, levels)
  {
    NotALevel(p, '#');
    SplitHash(p);
    StandardHash(Split(p), Split(topic));
    HashMatchesIff(p, topic);
  }

  /** A topic that the standard matches and the helper misses. */
  lemma PlusBeforeHashMisses()
    ensures StandardMatches(Split("a/+/#"), Split("a/b/c")) && !Matches("a/+/#", "a/b/c")
  {
    SplitFilter();
    SplitTopic();
    StandardHash(["a", "+"], ["a", "b", "c"]);
    assert "a/+" + "/#" == "a/+/#";
    PlusBeforeHashNeverMatches("a/+", "a/b/c");
  }

  lemma SplitFilter()
    ensures Split("a/+/#") == ["a", "+", "#"]
  {
    TwoLevels("a", "+");
    SplitHash("a" + "/" + "+");
    assert "a" + "/" + "+" + "/#" == "a/+/#";
  }

  lemma SplitTopic()
    ensures Split("a/b/c") == ["a", "b", "c"]
  {
    TwoLevels("b", "c");
    SplitSlashFree("a");
    SplitConcat("a", "b" + "/" + "c");
    assert "a" + "/" + ("b" + "/" + "c") == "a/b/c";
  }

  lemma PrefixChars(prefix: string, s: string, c: char)
    ensures prefix <= s && c in prefix ==> c in s
  {
    if prefix <= s {
      assert forall k :: 0 <= k < |prefix| ==> prefix[k] == s[k];
    }
  }

  lemma SplitHash(p: string)
    ensures Split(p + "/#") == Split(p) + ["#"]
  {
    SplitConcat(p, "#");
    SplitSlashFree("#");
    assert p + "/" + "#" == p + "/#";
  }

  /** A branch's subscription never receives another branch's messages. */
  lemma BranchesAreIsolated(a: string, b: string, rest: string)
    requires SlashFree(a) && SlashFree(b) && a != b
    ensures !Matches("branch/" + a + "/#", "branch/" + b + "/" + rest)
  {
    var p, topic := "branch/" + a, "branch/" + b + "/" + rest;
    HashMatchesIff(p, topic);
    assert "branch" + "/" + a == p && "branch" + "/" + b == "branch/" + b;
    TwoLevels("branch", a);
    TwoLevels("branch", b);
    SplitConcat("branch/" + b, rest);
    assert Split(p)[1] == a && Split(topic)[1] == b;
  }

  lemma TwoLevels(x: string, y: string)
    requires SlashFree(x) && SlashFree(y)
    ensures Split(x + "/" + y) == [x, y]
  {
    SplitConcat(x, y);
    SplitSlashFree(x);
    SplitSlashFree(y);
  }

  // ----- Branch messages -----

  datatype Parts = Parts(terminalId: string, source: string, subTopic: string)

  /** `HandleBranchMessage`: topics of fewer than three levels are ignored. */
  function TakeApart(topic: string): Option<Parts> {
    var parts := Split(topic);
    if |parts| < 3 then None
    else Some(Parts(parts[1], parts[2], if |parts| > 3 then Join(parts[3..]) else ""))
  }

  /** What the branch put into the topic is what the server takes out. */
  lemma TakenApart(t: string, src: string, sub: string)
    requires SlashFree(t) && SlashFree(src)
    ensures TakeApart("server/" + t + "/" + src + "/" + sub) == Some(Parts(t, src, sub))
    ensures TakeApart("server/" + t + "/" + src) == Some(Parts(t, src, ""))
    ensures TakeApart("server/" + t) == TakeApart(t) == None
  {
    SplitSlashFree(t);
    var head := "server/" + t + "/" + src;
    assert "server" + "/" + t == "server/" + t;
    TwoLevels("server", t);
    SplitConcat("server/" + t, src);
    SplitSlashFree(src);
    SplitConcat(head, sub);
    JoinSplit(sub);
    assert Split(head + "/" + sub)[3..] == Split(sub);
  }
}
