/** The records of twinewriter/models.py: one tweet of a thread, and the invariant a
    list of tweets keeps in the session record. */
module Models {
  import opened Text

  /** `TweetItem`: `index` is the 1-based position in the thread, `charCount` is a stored
      field (not derived from `content`), so every construction site has to set it. */
  datatype TweetItem = TweetItem(index: int, content: String, charCount: int)

  /** A tweet whose stored character count is the length of its content. */
  predicate WellFormed(t: TweetItem) {
    t.charCount == |t.content|
  }

  /** The numbering prefix `"{i}/{n} "` written in front of a thread tweet. */
  function ThreadPrefix(i: nat, n: nat): (r: String)
    ensures 4 <= |r| == |NatToString(i)| + |NatToString(n)| + 2
    ensures r[|r| - 1] == ' '
  {
    NatToString(i) + "/" + NatToString(n) + " "
  }

  /** Up to 99 tweets every prefix fits in the 6 characters the splitter reserves for it;
      from 100 tweets on, the prefix of tweet 10 and of every later tweet does not. */
  lemma PrefixReserve(i: nat, n: nat)
    requires 1 <= i <= n
    ensures n <= 99 ==> |ThreadPrefix(i, n)| <= 6
    ensures n >= 100 && i >= 10 ==> |ThreadPrefix(i, n)| >= 7
  {
    NatToStringLength(i);
    NatToStringLength(n);
  }

  /** The invariant of the `tweets` list: the tweet at position `i` has index `i + 1` and
      a correct character count, and in a thread of more than one tweet its content starts
      with the prefix for its position and the current thread length. */
  predicate ThreadValid(tweets: seq<TweetItem>) {
    forall i :: 0 <= i < |tweets| ==>
      tweets[i].index == i + 1 && WellFormed(tweets[i])
      && (|tweets| > 1 ==> ThreadPrefix(i + 1, |tweets|) <= tweets[i].content)
  }

  /** `TweetItem.__str__`: `"[{index}] {content} ({char_count} chars)"`. */
  function Render(t: TweetItem): (r: String)
    ensures var head := |IntToString(t.index)| + 3;
      head + |t.content| + 7 <= |r|
      && r[..head] == "[" + IntToString(t.index) + "] "
      && r[head..head + |t.content|] == t.content
      && r[head + |t.content|..|r| - 7] == " (" + IntToString(t.charCount)
      && r[|r| - 7..] == " chars)"
  {
    var head := "[" + IntToString(t.index) + "] ";
    var tail := " (" + IntToString(t.charCount) + " chars)";
    var r := head + t.content + tail;
    assert tail[|tail| - 7..] == " chars)";
    assert r[|r| - 7..] == tail[|tail| - 7..];
    assert r[..|head|] == head;
    assert r[|head|..|head| + |t.content|] == t.content;
    assert r[|head| + |t.content|..|r| - 7] == tail[..|tail| - 7];
    r
  }
}
