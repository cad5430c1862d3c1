/** The tags in front of a log message: how nng2format writes them and how
    parse_log_tags of spdlog.cpp finds them again. */
module LogTags {

  datatype Tags = Tags(component: string, action: string)

  const NO_TAGS := Tags("", "")

  /** std::string_view::find: the first position of c, or the length. */
  function Find(s: string, c: char): (r: nat)
    ensures r <= |s| && (r < |s| ==> s[r] == c)
    ensures forall i | 0 <= i < r :: s[i] != c
  {
    if s == "" || s[0] == c then 0 else 1 + Find(s[1..], c)
  }

  /** The text before the first closing bracket, of at most 128 characters. */
  function TagsOf(message: string): Tags
  {
    if message == "" || message[0] != '[' then NO_TAGS
    else
      var n := Find(message[1..], ']');
      if n > 128 || n >= |message| - 1 then NO_TAGS else TagsIn(message[1..n + 1])
  }

  function TagsIn(tag: string): Tags
  {
    var k := Find(tag, ':');
    if k == 0 || k + 1 >= |tag| then NO_TAGS else Named(tag[..k], tag[k + 1..])
  }

  /** A component nng is qualified by what follows up to the next colon. */
  function Named(left: string, right: string): Tags
  {
    var k := Find(right, ':');
    if left == "nng" && k + 1 < |right| then Tags("nng." + right[..k], right[k + 1..]) else Tags(left, right)
  }

  /** What nng2format writes in front of a message. */
  function NngTag(component: string, action: string): string
  {
    "[nng:" + component + ":" + action + "] "
  }

  /** parse_log_tags */
  method ParseLogTags(message: string) returns (tags: Tags)
    ensures tags == TagsOf(message)
  {
    if |message| < 4 || message[0] != '[' {
      return NO_TAGS;
    }
    var closing := 1;
    ghost var text := message[1..];
    while closing < |message| && message[closing] != ']'
      invariant 1 <= closing <= |message| && closing <= 129
      invariant forall i | 1 <= i < closing :: message[i] != ']'
    {
      if closing > 128 {
        assert Find(text, ']') >= closing;
        return NO_TAGS;
      }
      closing := closing + 1;
    }
    FindIs(text, ']', closing - 1);
    if closing >= |message| || closing <= 1 {
      return NO_TAGS;
    }
    var tag := message[1..closing];
    var firstColon := Find(tag, ':');
    if firstColon >= |tag| || firstColon == 0 || firstColon + 1 >= |tag| {
      return NO_TAGS;
    }
    if tag[..firstColon] == "nng" {
      var secondColon := firstColon + 1 + Find(tag[firstColon + 1..], ':');
      if secondColon < |tag| && secondColon + 1 < |tag| {
        tags := Tags("nng." + tag[firstColon + 1..secondColon], tag[secondColon + 1..]);
        assert tags == Named(tag[..firstColon], tag[firstColon + 1..]);
        return;
      }
    }
    tags := Tags(tag[..firstColon], tag[firstColon + 1..]);
  }

  lemma FindIs(s: string, c: char, n: nat)
    requires n <= |s| && (forall i | 0 <= i < n :: s[i] != c) && (n < |s| ==> s[n] == c)
    ensures Find(s, c) == n
  {}

  // ----- what is recognised -----

  /** The message starts with a bracketed text that has no closing bracket. */
  ghost predicate Bracketed(message: string, tag: string, rest: string)
  {
    message == "[" + tag + "]" + rest && ']' !in tag && |tag| <= 128
  }

  /** ... of two parts, both there, with the first colon between them. */
  ghost predicate Tagged(message: string, left: string, right: string, rest: string)
  {
    && Bracketed(message, left + ":" + right, rest)
    && left != "" && right != "" && ':' !in left
  }

  lemma BracketedReads(message: string, tag: string, rest: string)
    requires Bracketed(message, tag, rest)
    ensures TagsOf(message) == TagsIn(tag)
  {
    var text := message[1..];
    assert message == "[" + (tag + "]" + rest);
    assert text == tag + "]" + rest;
    FindIs(text, ']', |tag|);
    assert message[1..|tag| + 1] == tag;
  }

  lemma PartsRead(left: string, right: string)
    requires left != "" && right != "" && ':' !in left
    ensures TagsIn(left + ":" + right) == Named(left, right) != NO_TAGS
  {
    var tag := left + ":" + right;
    FindIs(tag, ':', |left|);
    assert tag[..|left|] == left && tag[|left| + 1..] == right;
  }

  lemma TaggedReads(message: string, left: string, right: string, rest: string)
    requires Tagged(message, left, right, rest)
    ensures TagsOf(message) == Named(left, right) != NO_TAGS
  {
    BracketedReads(message, left + ":" + right, rest);
    PartsRead(left, right);
  }

  lemma FoundIsBracketed(message: string) returns (tag: string, rest: string)
    requires TagsOf(message) != NO_TAGS
    ensures Bracketed(message, tag, rest) && TagsIn(tag) != NO_TAGS
  {
    var n := Find(message[1..], ']');
    tag, rest := message[1..n + 1], message[n + 2..];
    assert forall i | 0 <= i < n :: tag[i] == message[1..][i];
    assert message[n + 1] == message[1..][n];
    assert message == "[" + tag + "]" + rest;
  }

  lemma FoundHasParts(tag: string) returns (left: string, right: string)
    requires TagsIn(tag) != NO_TAGS
    ensures tag == left + ":" + right && left != "" && right != "" && ':' !in left
  {
    var k := Find(tag, ':');
    left, right := tag[..k], tag[k + 1..];
  }

  lemma FoundIsTagged(message: string) returns (left: string, right: string, rest: string)
    requires TagsOf(message) != NO_TAGS
    ensures Tagged(message, left, right, rest)
  {
    var tag;
    tag, rest := FoundIsBracketed(message);
    left, right := FoundHasParts(tag);
  }

  /** Tags are found exactly in such messages. */
  lemma TagsAreFoundExactly(message: string)
    ensures TagsOf(message) != NO_TAGS
            <==> exists left: string, right: string, rest: string :: Tagged(message, left, right, rest)
  {
    if TagsOf(message) != NO_TAGS {
      var left, right, rest := FoundIsTagged(message);
    }
    forall left: string, right: string, rest: string | Tagged(message, left, right, rest)
      ensures TagsOf(message) != NO_TAGS
    {
      TaggedReads(message, left, right, rest);
    }
  }

  /** The parts of a tag that can be told apart again. */
  predicate Separable(component: string, action: string)
  {
    && ':' !in component && ']' !in component && ']' !in action && action != ""
    && |component| + |action| + 5 <= 128
  }

  /** What tags look like. */
  lemma TagsShape(message: string)
    requires TagsOf(message) != NO_TAGS
    ensures var t := TagsOf(message);
            t.action != "" && ':' !in t.component && ']' !in t.component && ']' !in t.action
            && |t.component| + 1 + |t.action| <= 128
  {
    var left, right, rest := FoundIsTagged(message);
    TaggedReads(message, left, right, rest);
    assert forall c :: c in left || c in right ==> c in left + ":" + right;
    NamedShape(left, right);
  }

  lemma NamedShape(left: string, right: string)
    requires ':' !in left && ']' !in left && ']' !in right && right != ""
    ensures var t := Named(left, right);
            && t.action != "" && ':' !in t.component && ']' !in t.component && ']' !in t.action
            && |t.component| + 1 + |t.action| <= |left| + 1 + |right|
  {
    var k := Find(right, ':');
    if left == "nng" && k + 1 < |right| {
      assert forall c :: c in right[..k] || c in right[k + 1..] ==> c in right;
    }
  }

  /** Tags written by nng2format are found again exactly if the component has no
      colon and no closing bracket, the action is there and has no closing
      bracket, and the two fit. */
  lemma NngTagRoundTrip(component: string, action: string, text: string)
    ensures TagsOf(NngTag(component, action) + text) == Tags("nng." + component, action)
            <==> Separable(component, action)
  {
    var message := NngTag(component, action) + text;
    if Separable(component, action) {
      var right := component + ":" + action;
      assert message == "[" + "nng" + ":" + right + "]" + (" " + text);
      TaggedReads(message, "nng", right, " " + text);
      assert right[..|component|] == component && right[|component| + 1..] == action;
      FindIs(right, ':', |component|);
    }
    if TagsOf(message) == Tags("nng." + component, action) {
      TagsShape(message);
      assert ("nng." + component)[4..] == component;
      assert forall c :: c in component ==> c in "nng." + component;
    }
  }

  /** Tags that are not those of nng come back whole, colons in the action included. */
  lemma PlainTagRoundTrip(component: string, action: string, text: string)
    requires component != "" && component != "nng" && ':' !in component && ']' !in component
    requires action != "" && ']' !in action && |component| + 1 + |action| <= 128
    ensures TagsOf("[" + component + ":" + action + "]" + text) == Tags(component, action)
  {
    var message := "[" + component + ":" + action + "]" + text;
    assert message == "[" + (component + ":" + action) + "]" + text;
    TaggedReads(message, component, action, text);
  }

  /** So do those of nng without a second part. */
  lemma BareNngTag(action: string, text: string)
    requires action != "" && ':' !in action[..|action| - 1] && ']' !in action && 4 + |action| <= 128
    ensures TagsOf("[nng:" + action + "]" + text) == Tags("nng", action)
  {
    var message := "[nng:" + action + "]" + text;
    assert message == "[" + ("nng" + ":" + action) + "]" + text;
    TaggedReads(message, "nng", action, text);
    assert forall i | 0 <= i < |action| - 1 :: action[i] == action[..|action| - 1][i];
    assert Find(action, ':') + 1 >= |action|;
  }
}
