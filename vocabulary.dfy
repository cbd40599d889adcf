/** The vocabulary list that the export parser produces and the prompt
    builders consume, and its comma-separated term listing. */
module Vocabulary {
  import opened Text

  /** One flashcard: the word as written and its furigana reading
      ("" when the card carries none). */
  datatype VocabRecord = VocabRecord(term: string, reading: string)

  /** The words of a vocabulary list, in list order; readings are dropped. */
  function Terms(words: seq<VocabRecord>): (ts: seq<string>)
    ensures |ts| == |words|
    ensures forall i :: 0 <= i < |words| ==> ts[i] == words[i].term
  {
    seq(|words|, i requires 0 <= i < |words| => words[i].term)
  }

  /** `", ".join(word for word, reading in words)`: the listing a prompt embeds. */
  function Listing(words: seq<VocabRecord>): string
  {
    Join(Terms(words), ListSeparator)
  }

  /** The listing of a non-empty list splits back into its terms, in order,
      whenever no term itself contains ", ". */
  lemma ListingRoundTrip(words: seq<VocabRecord>)
    requires |words| >= 1
    requires forall i :: 0 <= i < |words| ==> !Contains(words[i].term, ListSeparator)
    ensures Split(Listing(words), ListSeparator) == Terms(words)
  {
    SplitJoin(Terms(words));
  }

  /** The listing holds every term plus two characters of separator between
      neighbours: Σ|term| + 2·(n−1) characters for n ≥ 1, none for n = 0. */
  lemma ListingLength(words: seq<VocabRecord>)
    ensures |Listing(words)| ==
      if |words| == 0 then 0 else TotalLength(Terms(words)) + 2 * (|words| - 1)
  {
    JoinLength(Terms(words), ListSeparator);
  }
}
