/** Direct chat ids (utils/chatId.js and services/history.service.js). */
module ChatId {
  import opened Wrappers
  import opened Text

  const DIRECT_PREFIX := "direct:"

  /** The same id whichever way round the two users are given. */
  function ToDirectChatId(a: string, b: string): string {
    if a == "" || b == "" then ""
    else if Less(b, a) then DIRECT_PREFIX + b + ":" + a
    else DIRECT_PREFIX + a + ":" + b
  }

  function ParseDirectChatId(chatId: string): Option<(string, string)> {
    if !StartsWith(chatId, DIRECT_PREFIX) then None
    else
      var parts := Split(chatId, ':');
      if |parts| == 3 then Some((parts[1], parts[2])) else None
  }

  lemma DirectChatIdSymmetric(a: string, b: string)
    ensures ToDirectChatId(a, b) == ToDirectChatId(b, a)
  {
    LessTotal(a, b);
    if Less(a, b) && Less(b, a) {
      LessTransitive(a, b, a);
      LessIrreflexive(a);
    }
  }

  lemma SplitDirect(a: string, b: string)
    requires ':' !in a && ':' !in b
    ensures Split(DIRECT_PREFIX + a + ":" + b, ':') == ["direct", a, b]
  {
    SplitFree(b, ':');
    SplitCons(a, b, ':');
    SplitCons("direct", a + ":" + b, ':');
    assert DIRECT_PREFIX + a + ":" + b == "direct" + ":" + (a + ":" + b);
    assert ["direct"] + ([a] + [b]) == ["direct", a, b];
  }

  lemma SplitCount(s: string, t: string)
    ensures |Split(s + ":" + t, ':')| == |Split(s, ':')| + |Split(t, ':')|
  {
    if s == "" {
      assert (s + ":" + t)[1..] == t;
    } else {
      assert (s + ":" + t)[1..] == s[1..] + ":" + t;
      SplitCount(s[1..], t);
    }
  }

  lemma OnePartIff(s: string)
    ensures |Split(s, ':')| == 1 <==> ':' !in s
  {
    if s != "" {
      OnePartIff(s[1..]);
      assert s == [s[0]] + s[1..];
    }
  }

  /** Parsing recovers the two users, in id order, exactly when neither id contains a colon. */
  lemma ParseRecoversPair(a: string, b: string)
    requires a != "" && b != ""
    ensures ParseDirectChatId(ToDirectChatId(a, b)) ==
            if ':' in a || ':' in b then None else Some(if Less(b, a) then (b, a) else (a, b))
  {
    var x, y := if Less(b, a) then b else a, if Less(b, a) then a else b;
    assert ToDirectChatId(a, b) == "direct" + ":" + (x + ":" + y);
    SplitCount("direct", x + ":" + y);
    SplitCount(x, y);
    OnePartIff("direct");
    OnePartIff(x);
    OnePartIff(y);
    if ':' !in a && ':' !in b {
      SplitDirect(x, y);
    }
  }
}
