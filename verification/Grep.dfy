/** The regular-expression matcher of user/grep.c, against the language of its patterns. */
module Grep {

  /** A NUL-terminated C string, without its terminator. */
  type CString = s: string | forall i :: 0 <= i < |s| ==> s[i] != '\0'

  /** `s[i]` as C reads it: the terminator stands just past the last character. */
  function At(s: CString, i: nat): (c: char)
    requires i <= |s|
  {
    if i < |s| then s[i] else '\0'
  }

  /** One item of a pattern: a character class, taken once or any number of times. */
  datatype Item = Once(c: char) | Star(c: char)

  /** '.' stands for every character, anything else for itself. */
  predicate Accepts(c: char, x: char) {
    c == '.' || c == x
  }

  /** `$` anchors a match to the end of the text only as the last character of the pattern. */
  predicate EndAnchored(re: CString) {
    |re| > 0 && re[|re| - 1] == '$'
  }

  /** The items of a pattern read from left to right; a `*` binds the character before it. */
  function Items(re: CString): (items: seq<Item>)
    decreases |re|
  {
    if |re| == 0 || re == "$" then []
    else if |re| >= 2 && re[1] == '*' then [Star(re[0])] + Items(re[2..])
    else [Once(re[0])] + Items(re[1..])
  }

  /** `word` is a concatenation of words of the successive items. */
  ghost predicate InLanguage(items: seq<Item>, word: string)
    decreases |items|
  {
    if items == [] then word == []
    else match items[0]
      case Once(c) => |word| > 0 && Accepts(c, word[0]) && InLanguage(items[1..], word[1..])
      case Star(c) => exists k :: 0 <= k <= |word| && Repeats(c, word[..k]) && InLanguage(items[1..], word[k..])
  }

  ghost predicate Repeats(c: char, word: string) {
    forall i :: 0 <= i < |word| ==> Accepts(c, word[i])
  }

  /** The first `j` characters of `text` are a word of `re`, which reaches the end of the text if `re` demands it. */
  ghost predicate MatchesPrefix(re: CString, text: CString, j: nat) {
    j <= |text| && InLanguage(Items(re), text[..j]) && (EndAnchored(re) ==> j == |text|)
  }

  ghost predicate MatchesHere(re: CString, text: CString) {
    exists j: nat :: MatchesPrefix(re, text, j)
  }

  /** What `match` promises: a word of the pattern somewhere in the text, at its start for a leading `^`. */
  ghost predicate Matches(re: CString, text: CString) {
    if |re| > 0 && re[0] == '^' then MatchesHere(re[1..], text)
    else exists i :: 0 <= i <= |text| && MatchesHere(re, text[i..])
  }

  method Match(re: CString, text: CString) returns (r: bool)
    ensures r <==> Matches(re, text)
  {
    if At(re, 0) == '^' {
      r := MatchHere(re[1..], text);
      return;
    }
    var t := 0;
    while true
      invariant 0 <= t <= |text|
      invariant forall i :: 0 <= i < t ==> !MatchesHere(re, text[i..])
      decreases |text| - t
    {
      r := MatchHere(re, text[t..]);
      if r { return; }
      if At(text, t) == '\0' { return false; }
      t := t + 1;
    }
  }

  method MatchHere(re: CString, text: CString) returns (r: bool)
    ensures r <==> MatchesHere(re, text)
    decreases |re|
  {
    if At(re, 0) == '\0' {
      assert MatchesPrefix(re, text, 0);
      return true;
    }
    if At(re, 1) == '*' {
      r := MatchStar(re[0], re[2..], text);
      StarPattern(re, text);
      return;
    }
    if At(re, 0) == '$' && At(re, 1) == '\0' {
      DollarPattern(re, text);
      return At(text, 0) == '\0';
    }
    OncePattern(re, text);
    if At(text, 0) != '\0' && (At(re, 0) == '.' || At(re, 0) == At(text, 0)) {
      r := MatchHere(re[1..], text[1..]);
      return;
    }
    return false;
  }

  /** `c*` followed by `re`, at the start of `text`. */
  ghost predicate StarMatchesHere(c: char, re: CString, text: CString) {
    exists k :: 0 <= k <= |text| && Repeats(c, text[..k]) && MatchesHere(re, text[k..])
  }

  method MatchStar(c: char, re: CString, text: CString) returns (r: bool)
    ensures r <==> StarMatchesHere(c, re, text)
    decreases |re| + 1
  {
    var t := 0;
    while true
      invariant 0 <= t <= |text|
      invariant Repeats(c, text[..t])
      invariant forall k :: 0 <= k < t ==> !MatchesHere(re, text[k..])
      decreases |text| - t
    {
      r := MatchHere(re, text[t..]);
      if r { return; }
      if !(At(text, t) != '\0' && (At(text, t) == c || c == '.')) {
        assert forall k :: t < k <= |text| ==> text[..k][t] == text[t];
        return false;
      }
      t := t + 1;
    }
  }

  lemma DollarPattern(re: CString, text: CString)
    requires re == "$"
    ensures MatchesHere(re, text) <==> |text| == 0
  {
    if |text| == 0 { assert MatchesPrefix(re, text, 0); }
  }

  /** A pattern that starts with a plain character matches exactly when that character does and the rest follows. */
  lemma OncePattern(re: CString, text: CString)
    requires |re| > 0 && re != "$" && !(|re| >= 2 && re[1] == '*')
    ensures MatchesHere(re, text) <==> |text| > 0 && Accepts(re[0], text[0]) && MatchesHere(re[1..], text[1..])
  {
    var items := Items(re);
    assert items[1..] == Items(re[1..]);
    if j: nat :| MatchesPrefix(re, text, j) {
      assert text[..j][1..] == text[1..][..j - 1];
      assert MatchesPrefix(re[1..], text[1..], j - 1);
    }
    if |text| > 0 && Accepts(re[0], text[0]) && MatchesHere(re[1..], text[1..]) {
      var j: nat :| MatchesPrefix(re[1..], text[1..], j);
      assert text[..j + 1][1..] == text[1..][..j];
      assert MatchesPrefix(re, text, j + 1);
    }
  }

  /** A starred character matches exactly when some run of it is followed by the rest of the pattern. */
  lemma StarPattern(re: CString, text: CString)
    requires |re| >= 2 && re[1] == '*'
    ensures MatchesHere(re, text) <==> StarMatchesHere(re[0], re[2..], text)
  {
    var c, rest := re[0], re[2..];
    assert Items(re)[1..] == Items(rest);
    assert EndAnchored(re) == EndAnchored(rest);
    if j: nat :| MatchesPrefix(re, text, j) {
      var word := text[..j];
      var k :| 0 <= k <= j && Repeats(c, word[..k]) && InLanguage(Items(rest), word[k..]);
      assert word[..k] == text[..k] && word[k..] == text[k..][..j - k];
      assert MatchesPrefix(rest, text[k..], j - k);
    }
    if StarMatchesHere(c, rest, text) {
      var k :| 0 <= k <= |text| && Repeats(c, text[..k]) && MatchesHere(rest, text[k..]);
      var j: nat :| MatchesPrefix(rest, text[k..], j);
      var word := text[..k + j];
      assert word[..k] == text[..k] && word[k..] == text[k..][..j];
      assert MatchesPrefix(re, text, k + j);
    }
  }
}
