/** The vocabulary side of the story generator: `AnkiVocabParser.parse` on
    the export's content, `format_for_prompt`, and the sentence-boundary
    trimming that `generate_story_local` applies to the model's output. */
module StoryGen {
  import opened Text
  import opened Vocabulary
  import opened AnkiExport

  /** `AnkiVocabParser.parse` with the file's content given: one record per
      match of the record pattern, each with its reading or "". */
  method Parse(content: string) returns (vocabWords: seq<VocabRecord>)
    ensures vocabWords == Records(content)
  {
    var matches := FindAll(content);
    vocabWords := [];
    for j := 0 to |matches|
      invariant |vocabWords| == j
      invariant forall i :: 0 <= i < j ==> vocabWords[i] == RecordOf(matches[i])
    {
      var word := ReadRecord(matches[j]);
      vocabWords := vocabWords + [word];
    }
    assert vocabWords == Records(content);
  }

  /** `format_for_prompt`: the words, readings left out, joined by ", ". */
  method FormatForPrompt(vocabWords: seq<VocabRecord>) returns (listing: string)
    ensures listing == Listing(vocabWords)
  {
    var wordList: seq<string> := [];
    for j := 0 to |vocabWords|
      invariant |wordList| == j
      invariant forall i :: 0 <= i < j ==> wordList[i] == vocabWords[i].term
    {
      wordList := wordList + [vocabWords[j].term];
    }
    assert wordList == Terms(vocabWords);
    listing := Join(wordList, ListSeparator);
  }

  // ---------------------------------------------------------------------
  // Trimming the generated story

  /** Sentence ends tried in this order: 。 ！ ？ 」 */
  const Delimiters: seq<char> := ['。', '！', '？', '」']

  /** `i > max_length * 0.8`, in exact integer arithmetic. */
  predicate FarEnough(i: int, maxLength: int) {
    5 * i > 4 * maxLength
  }

  /** The first delimiter, in list order from `d` on, whose last occurrence in
      `t` lies far enough along (the one the loop breaks on), or None. */
  function WinningDelimiter(t: string, maxLength: int, d: nat): (r: Option<nat>)
    requires d <= |Delimiters|
    ensures r.Some? ==> d <= r.value < |Delimiters| &&
                        FarEnough(LastIndexOf(t, Delimiters[r.value]), maxLength)
    ensures forall e :: d <= e < |Delimiters| && (r.None? || e < r.value) ==>
                        !FarEnough(LastIndexOf(t, Delimiters[e]), maxLength)
    decreases |Delimiters| - d
  {
    if d == |Delimiters| then None
    else if FarEnough(LastIndexOf(t, Delimiters[d]), maxLength) then Some(d)
    else WinningDelimiter(t, maxLength, d + 1)
  }

  /** The story as `generate_story_local` returns it: cut to `maxLength`
      characters when longer, then back to the winning delimiter if any. */
  function Trimmed(story: string, maxLength: int): (r: string)
    ensures |r| <= |story| && r == story[..|r|]
    ensures |story| <= maxLength ==> r == story
    ensures 0 <= maxLength < |story| ==> |r| <= maxLength
  {
    if |story| > maxLength then
      var t := PyPrefix(story, maxLength);
      match WinningDelimiter(t, maxLength, 0)
      case Some(d) => PyPrefix(t, LastIndexOf(t, Delimiters[d]) + 1)
      case None => t
    else story
  }

  /** The trimming block of `generate_story_local`. */
  method TrimStory(story: string, maxLength: int) returns (result: string)
    ensures result == Trimmed(story, maxLength)
  {
    result := story;
    if |result| > maxLength {
      result := PyPrefix(result, maxLength);
      ghost var truncated := result;
      var d := 0;
      while d < |Delimiters|
        invariant 0 <= d <= |Delimiters|
        invariant result == truncated
        invariant WinningDelimiter(truncated, maxLength, d) == WinningDelimiter(truncated, maxLength, 0)
      {
        var lastDelim := LastIndexOf(result, Delimiters[d]);
        if FarEnough(lastDelim, maxLength) {
          result := PyPrefix(result, lastDelim + 1);
          break;
        }
        d := d + 1;
      }
    }
  }

  /** When a delimiter wins, the story is cut right after that delimiter's
      last occurrence within the first `maxLength` characters: the result ends
      with it, at an index beyond 80% of `maxLength`, and every delimiter
      earlier in the list had no occurrence that far along. */
  lemma TrimmedAtDelimiter(story: string, maxLength: nat, d: nat)
    requires maxLength < |story|
    requires WinningDelimiter(story[..maxLength], maxLength, 0) == Some(d)
    ensures var r := Trimmed(story, maxLength);
            var i := |r| - 1;
            |r| > 0 && r == story[..i + 1] && r[i] == Delimiters[d] &&
            FarEnough(i, maxLength) &&
            (forall j :: i < j < maxLength ==> story[j] != Delimiters[d]) &&
            (forall e :: 0 <= e < d ==> !FarEnough(LastIndexOf(story[..maxLength], Delimiters[e]), maxLength))
  {
    var t := story[..maxLength];
    assert PyPrefix(story, maxLength) == t;
    var i := LastIndexOf(t, Delimiters[d]);
    assert 5 * i > 4 * maxLength >= 0;
    assert PyPrefix(t, i + 1) == story[..i + 1];
    forall j | i < j < maxLength
      ensures story[j] != Delimiters[d]
    {
      assert story[j] == t[j];
    }
  }

  /** When no delimiter lies far enough along, the story is cut to exactly
      `maxLength` characters. */
  lemma TrimmedHard(story: string, maxLength: nat)
    requires maxLength < |story|
    requires forall e :: 0 <= e < |Delimiters| ==>
               !FarEnough(LastIndexOf(story[..maxLength], Delimiters[e]), maxLength)
    ensures Trimmed(story, maxLength) == story[..maxLength]
    ensures |Trimmed(story, maxLength)| == maxLength
  {
    assert PyPrefix(story, maxLength) == story[..maxLength];
    assert WinningDelimiter(story[..maxLength], maxLength, 0).None?;
  }

  /** A story longer than the limit is cut either to exactly `maxLength`
      characters or just after a delimiter that lies beyond 80% of it. */
  lemma TrimmedEndsWell(story: string, maxLength: nat)
    requires maxLength < |story|
    ensures var r := Trimmed(story, maxLength);
            |r| == maxLength ||
            (|r| > 0 && r[|r| - 1] in Delimiters && FarEnough(|r| - 1, maxLength))
  {
    var t := story[..maxLength];
    assert PyPrefix(story, maxLength) == t;
    match WinningDelimiter(t, maxLength, 0)
    case Some(d) => TrimmedAtDelimiter(story, maxLength, d);
    case None => TrimmedHard(story, maxLength);
  }

  /** Delimiter priority goes by list order, not by distance: with a limit
      of 20, a 。 at index 17 wins over a 」 at index 18. */
  lemma PriorityIsListOrder()
    ensures Trimmed(PriorityExample, 20) == PriorityExample[..18]
  {
    var t := PriorityExample[..20];
    assert t[17] == '。' && t[18] == '」' && t[19] == 'い';
    assert LastIndexOf(t, '。') == 17;
    assert WinningDelimiter(t, 20, 0) == Some(0);
    assert PyPrefix(t, 18) == PriorityExample[..18];
  }

  const PriorityExample: string := "あああああああああああああああああ。」いう"
}
