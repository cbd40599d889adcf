/** The vocabulary demo: `parse_anki_vocab` on the export's content and the
    text that `main` derives from its result — the numbered preview of the
    first twenty words, the "more" line, the listing cut for display and the
    three statistics. */
module Demo {
  import opened Text
  import opened Vocabulary
  import opened AnkiExport

  /** `parse_anki_vocab` with the file's content given; the same records as
      the story generator's parser. */
  method ParseAnkiVocab(content: string) returns (vocabWords: seq<VocabRecord>)
    ensures vocabWords == Records(content)
  {
    var matches := FindAll(content);
    vocabWords := [];
    for j := 0 to |matches|
      invariant |vocabWords| == j
      invariant forall i :: 0 <= i < j ==> vocabWords[i] == RecordOf(matches[i])
    {
      var word := ReadRecord(matches[j]);
      vocabWords := vocabWords + [word];
    }
    assert vocabWords == Records(content);
  }

  // ---------------------------------------------------------------------
  // Preview

  const PreviewSize: nat := 20

  /** `f"{i:2}. {kanji:10} ({reading})"`. */
  function PreviewLine(i: nat, word: VocabRecord): string
  {
    PadLeft(NatToString(i), 2) + ". " + PadRight(word.term, 10) + " (" + word.reading + ")"
  }

  /** The lines printed for `enumerate(vocab_words[:20], 1)`. */
  function Preview(words: seq<VocabRecord>): seq<string>
  {
    seq(Min(PreviewSize, |words|), k requires 0 <= k < Min(PreviewSize, |words|) =>
          PreviewLine(k + 1, words[k]))
  }

  /** The line printed after the preview when words were left out. */
  function MoreLine(n: nat): Option<string>
  {
    if n > PreviewSize then Some("\n... and " + NatToString(n - PreviewSize) + " more words")
    else None
  }

  /** A preview line starts with its number right-aligned in two columns. */
  lemma PreviewLineNumber(i: nat, word: VocabRecord)
    ensures var line := PreviewLine(i, word);
            var digits := NatToString(i);
            var numberEnd := Max(2, |digits|);
            (forall k :: 0 <= k < numberEnd - |digits| ==> line[k] == ' ') &&
            OccursAt(line, digits, numberEnd - |digits|) &&
            OccursAt(line, ". ", numberEnd)
  {
    var digits := NatToString(i);
    var number := PadLeft(digits, 2);
    var rest := ". " + PadRight(word.term, 10) + " (" + word.reading + ")";
    PreviewLineSplits(i, word);
    PadLeftOpens(PreviewLine(i, word), digits, 2, rest);
    OccursInSecond(PreviewLine(i, word), number, rest, ". ", 0);
  }

  lemma PreviewLineSplits(i: nat, word: VocabRecord)
    ensures PreviewLine(i, word) ==
            PadLeft(NatToString(i), 2) + (". " + PadRight(word.term, 10) + " (" + word.reading + ")")
  {
  }

  /** After the number and ". ", a preview line shows the term left-aligned
      in ten columns. */
  lemma PreviewLineTerm(i: nat, word: VocabRecord)
    ensures var line := PreviewLine(i, word);
            var numberEnd := Max(2, |NatToString(i)|);
            var termEnd := numberEnd + 2 + Max(10, |word.term|);
            OccursAt(line, word.term, numberEnd + 2) &&
            (forall k :: numberEnd + 2 + |word.term| <= k < termEnd ==> line[k] == ' ')
  {
    var number := PadLeft(NatToString(i), 2);
    var term := PadRight(word.term, 10);
    var line := PreviewLine(i, word);
    var at := |number| + 2;
    FourParts(line, number, ". ", term, " (" + word.reading + ")");
    assert term[0..|word.term|] == word.term;
    OccursWithin(line, term, at, word.term, 0);
    forall k | at + |word.term| <= k < at + |term|
      ensures line[k] == ' '
    {
      CharOfPiece(line, term, at, k - at);
    }
  }

  /** A preview line ends with the reading in parentheses. */
  lemma PreviewLineReading(i: nat, word: VocabRecord)
    ensures var line := PreviewLine(i, word);
            var termEnd := Max(2, |NatToString(i)|) + 2 + Max(10, |word.term|);
            |line| == termEnd + |word.reading| + 3 &&
            OccursAt(line, " (" + word.reading + ")", termEnd)
  {
    FourParts(PreviewLine(i, word), PadLeft(NatToString(i), 2), ". ", PadRight(word.term, 10),
              " (" + word.reading + ")");
  }

  /** The preview holds the first min(20, n) words, numbered from 1 in list
      order. */
  lemma PreviewIsFirstWords(words: seq<VocabRecord>)
    ensures |Preview(words)| == Min(PreviewSize, |words|)
    ensures forall k :: 0 <= k < |Preview(words)| ==> Preview(words)[k] == PreviewLine(k + 1, words[k])
  {
  }

  /** The "more" line appears exactly when words are left out of the
      preview, and the count it states makes up the rest: preview and count
      together account for all n words. */
  lemma MoreLineAccountsForRest(words: seq<VocabRecord>)
    ensures MoreLine(|words|).Some? <==> |words| > PreviewSize
    ensures |words| > PreviewSize ==>
              var digits := NatToString(|words| - PreviewSize);
              OccursAt(MoreLine(|words|).value, digits, 9) &&
              |Preview(words)| + DecimalValue(digits) == |words|
  {
    var n := |words|;
    if n > PreviewSize {
      var digits := NatToString(n - PreviewSize);
      assert OccursAt(MoreLine(n).value, digits, 9) by {
        assert MoreLine(n).value == "\n... and " + digits + " more words";
        OccursMiddle("\n... and ", digits, " more words");
      }
      assert |Preview(words)| == PreviewSize;
      DecimalRoundTrip(n - PreviewSize);
    }
  }

  // ---------------------------------------------------------------------
  // Display cut

  const DisplayLimit: nat := 300

  /** `formatted[:300] + "..." if len(formatted) > 300 else formatted`. */
  function DisplayText(formatted: string): (r: string)
    ensures |r| <= DisplayLimit + 3
    ensures |formatted| > DisplayLimit <==> |r| == DisplayLimit + 3
    ensures |formatted| <= DisplayLimit ==> r == formatted
    ensures |formatted| > DisplayLimit ==>
              r[..DisplayLimit] == formatted[..DisplayLimit] && r[DisplayLimit..] == "..."
  {
    if |formatted| > DisplayLimit then formatted[..DisplayLimit] + "..." else formatted
  }

  // ---------------------------------------------------------------------
  // Statistics

  /** The three numbers printed under "Statistics:". */
  datatype Statistics = Statistics(totalWords: nat, promptLength: nat, savings: nat)

  /** The readings of a vocabulary list, in list order. */
  function Readings(words: seq<VocabRecord>): (rs: seq<string>)
    ensures |rs| == |words|
    ensures forall i :: 0 <= i < |words| ==> rs[i] == words[i].reading
  {
    seq(|words|, i requires 0 <= i < |words| => words[i].reading)
  }

  /** Each word written with its reading, as `main` of the story generator
      shows it: `kanji(reading)`. */
  function Annotated(words: seq<VocabRecord>): (ws: seq<string>)
    ensures |ws| == |words|
    ensures forall i :: 0 <= i < |words| ==> ws[i] == words[i].term + "(" + words[i].reading + ")"
  {
    seq(|words|, i requires 0 <= i < |words| => words[i].term + "(" + words[i].reading + ")")
  }

  /** The statistics for a parsed list: its size, the length of its listing,
      and the estimated savings Σ|reading| + 2·n. */
  function Stats(words: seq<VocabRecord>): Statistics
  {
    Statistics(|words|, |Listing(words)|, TotalLength(Readings(words)) + |words| * 2)
  }

  /** The savings estimate is never below two characters per word. */
  lemma SavingsAtLeastTwoPerWord(words: seq<VocabRecord>)
    ensures Stats(words).savings >= 2 * Stats(words).totalWords
  {
  }

  /** The estimated prompt length is Σ|term| + 2·(n−1), or 0 for no words. */
  lemma PromptLengthFormula(words: seq<VocabRecord>)
    ensures Stats(words).promptLength ==
      if |words| == 0 then 0 else TotalLength(Terms(words)) + 2 * (|words| - 1)
  {
    ListingLength(words);
  }

  /** Writing every word with its reading in parentheses grows each part by
      its reading and two characters. */
  lemma {:induction false} AnnotatedLength(words: seq<VocabRecord>)
    ensures TotalLength(Annotated(words)) ==
            TotalLength(Terms(words)) + TotalLength(Readings(words)) + 2 * |words|
  {
    if |words| > 0 {
      assert Annotated(words)[1..] == Annotated(words[1..]);
      assert Terms(words)[1..] == Terms(words[1..]);
      assert Readings(words)[1..] == Readings(words[1..]);
      AnnotatedLength(words[1..]);
    }
  }

  /** The savings estimate is exactly what the listing would grow by if every
      word were written with its reading in parentheses. */
  lemma SavingsAreReadingsLeftOut(words: seq<VocabRecord>)
    ensures |Join(Annotated(words), ListSeparator)| ==
            Stats(words).promptLength + Stats(words).savings
  {
    ListingLength(words);
    JoinLength(Annotated(words), ListSeparator);
    AnnotatedLength(words);
  }
}
