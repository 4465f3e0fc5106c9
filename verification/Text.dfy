/** Taking texts apart at a separator. */
module Text {
  import opened Base

  datatype Split = Split(before: string, after: string)

  /** `split_once`: around the first separator, or nothing without one. */
  function SplitOnce(text: string, separator: char): Option<Split> {
    if text == "" then None
    else if text[0] == separator then Some(Split("", text[1..]))
    else match SplitOnce(text[1..], separator)
         case None => None
         case Some(s) => Some(Split([text[0]] + s.before, s.after))
  }

  /** Splitting at the first separator undoes the join, as long as the first part has none. */
  lemma {:induction false} SplitOnceJoin(before: string, separator: char, after: string)
    requires separator !in before
    ensures SplitOnce(before + [separator] + after, separator) == Some(Split(before, after))
  {
    var text := before + [separator] + after;
    if before == "" {
      assert text[1..] == after;
    } else {
      assert before[0] in before;
      assert text[1..] == before[1..] + [separator] + after;
      SplitOnceJoin(before[1..], separator, after);
      assert [before[0]] + before[1..] == before;
    }
  }

  /** What a split gives: the parts rejoin to the text, and the first has no separator. */
  lemma {:induction false} SplitOnceParts(text: string, separator: char)
    ensures SplitOnce(text, separator).None? <==> separator !in text
    ensures var s := SplitOnce(text, separator);
            s.Some? ==> separator !in s.value.before && s.value.before + [separator] + s.value.after == text
  {
    if text != "" {
      assert text == [text[0]] + text[1..];
      if text[0] != separator { SplitOnceParts(text[1..], separator); }
    }
  }
}
