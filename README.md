# Japanese story generator from Anki vocabulary: a Dafny model

The generator reads an Anki export in which each note is a line `word<TAB>"html"`. It extracts each word and its furigana reading, and lists the words, comma-separated, in a prompt. It then asks either Claude or a local language model for a short Japanese story that uses them. A small demo prints the parsed vocabulary with a preview, the prompt listing and some statistics.

This project models the text-processing core of both programs and proves its properties:

- **`anki_export.dfy`** (`AnkiExport`): the record pattern `^([^\t\n]+)\t"(.+?)"$` under MULTILINE|DOTALL.
  - It is written twice: once as a declarative predicate, `IsMatch`, and once as a position-by-position scanner, `FindAllFrom`, which plays the role of `re.findall`.
  - They are proved to agree. The scanner returns only matches, in text order, without overlap. Every match that is not returned starts inside one that is.
  - The furigana search `<div class=""furigana-text"">([^<]+)</div>` is a leftmost search, and its capture is stripped.
- **`vocabulary.dfy`** (`Vocabulary`): the `(term, reading)` record and the `", "` listing, with a split round trip and a length formula.
- **`story_gen.dfy`** (`StoryGen`): `AnkiVocabParser.parse` and `format_for_prompt` as loops. It also holds the trimming at sentence boundaries that `generate_story_local` applies to the model's output. The trimming loop is proved against a specification function, with lemmas for each outcome.
- **`story_prompts.dfy`** (`StoryPrompts`): the Claude prompt (strict or flexible constraints, optional theme, closing line) and the local-model prompt.
  - Each is built step by step as in the source, with `+=`.
  - Each is proved equal to a header, a body and a tail, with lemmas on the layout, the embedded listing, the theme directive, the final line and the stated length limit.
- **`story_errors.dfy`** (`StoryErrors`): the ordered classifier that `main` applies to the lowered error message. For two of the messages `generate_story_claude` raises, it proves how they are classified: the credits message (`CreditsMessageClassified`) and the authentication message (`AuthMessageNeverGeneric`).
- **`demo.dfy`** (`Demo`): `parse_anki_vocab`, the numbered preview of the first 20 words and the "more" line, the 300-character display cut, and the three statistics.
- **`text.dfy`** (`Text`): the Python `str` operations the programs rely on.
  - `isspace` and `strip`, `find`, `rfind`, `in`, `join` and `split`, ASCII `lower`, and `str` of an integer.
  - Format padding (`{i:2}`, `{s:10}`) and `s[:n]`, including negative `n`.

Two behaviours of the code are worth stating up front:

- **Trimming:** the delimiters `。！？」` are tried in list order, and the first whose last index lies beyond 80% of the limit wins, not the one nearest the cut (see `StoryGen.PriorityIsListOrder`).
- **Error screens:** `main` has three screens: credits, API key and other. The rate-limit and connection messages fall into other unless their detail contains a signal word.

## Model

| member | source | states |
|---|---|---|
| AnkiExport.MatchAt | japanese_story_gen.py:29-30 | The pattern attempt at one position: when it succeeds, it starts there and satisfies the declarative record pattern (line start, term without tab or newline, tab, quote, non-empty lazy payload up to the first `"` before a newline or the end) |
| AnkiExport.MatchAtFinds | japanese_story_gen.py:29 | Conversely, every match of the pattern is exactly what the attempt at its start position finds, so a match is fixed by where it starts |
| AnkiExport.TermEnd | japanese_story_gen.py:29 | The greedy `[^\t\n]+` run stops at the first tab or newline, or at the end of the text |
| AnkiExport.ClosingQuote | japanese_story_gen.py:29 | The lazy `(.+?)"$` stops at the first quote followed by a newline or the end of the text, or reports that there is none |
| AnkiExport.FindAllFrom | japanese_story_gen.py:30 | `re.findall` from a position: every result is a match starting at or after it, and consecutive results do not overlap |
| AnkiExport.FindAllFromComplete | japanese_story_gen.py:30 | Every match at or after the position is found, or starts strictly inside a found match |
| AnkiExport.FindAllIsLeftmostNonOverlapping | japanese_story_gen.py:29-30 | `findall` returns pattern matches only, in text order, pairwise non-overlapping, and every match it does not return starts inside one it does |
| AnkiExport.SearchFurigana | japanese_story_gen.py:36-39 | `re.search` of the reading pattern: the leftmost position where the tag, a non-empty `<`-free run and `</div>` occur, or -1 when there is none |
| AnkiExport.Capture | japanese_story_gen.py:37 | Group 1 of the reading pattern is non-empty and free of `<` |
| AnkiExport.Reading | japanese_story_gen.py:36-40 | A reading never contains `<` and, when non-empty, neither begins nor ends with whitespace |
| AnkiExport.ReadingIsLeftmostCapture | japanese_story_gen.py:36-40 | The reading is the stripped group of the leftmost occurrence of the reading pattern |
| AnkiExport.ReadingAbsent | japanese_story_gen.py:40 | A payload without the reading pattern yields the empty reading |
| AnkiExport.ReadRecord | japanese_story_gen.py:33-42 | One pass of the loop body gives the match's term paired with its payload's reading |
| AnkiExport.Records | japanese_story_gen.py:32-44 | The parser's result has one record per `findall` match, in the same order, and no match is dropped for lacking furigana |
| AnkiExport.RecordOfWellFormed | japanese_story_gen.py:29-40 | A match yields a record whose term is non-empty and free of tabs and newlines, and whose reading is empty or stripped and free of `<` |
| AnkiExport.RecordsWellFormed | japanese_story_gen.py:29-42 | Every record the parser returns is well formed in that sense |
| StoryGen.Parse | japanese_story_gen.py:18-44 | The append loop returns exactly `Records(content)` |
| StoryGen.FormatForPrompt | japanese_story_gen.py:46-54 | The append loop and join return the terms joined by `", "`, in list order, with readings ignored |
| Vocabulary.Terms | japanese_story_gen.py:48-52 | The word list has one entry per record, the record's term, in order |
| Vocabulary.ListingRoundTrip | japanese_story_gen.py:54 | Splitting a non-empty listing on `", "` gives back the terms whenever no term contains `", "` |
| Vocabulary.ListingLength | demo.py:55-57 | The listing is Σ\|term\| + 2·(n−1) characters long for n ≥ 1, and empty for n = 0 |
| Text.SplitJoin | japanese_story_gen.py:54 | `split(", ")` inverts `", ".join` on at least one part none of which contains `", "` |
| Text.SplitOfEmptyListing | japanese_story_gen.py:54 | The empty list joins to `""`, which splits into one empty piece; the round trip therefore needs at least one term |
| Text.JoinLength | japanese_story_gen.py:54 | A joined string has the length of its parts plus one separator per neighbouring pair |
| Text.Strip | japanese_story_gen.py:40 | `strip()` drops exactly the leading and trailing whitespace: the result sits right after the leading run, only whitespace follows it, and it is empty exactly when the input is all whitespace |
| Text.LastIndexOf | japanese_story_gen.py:118 | `rfind` of a character: -1 or an index holding it, with no later occurrence |
| Text.PyPrefix | japanese_story_gen.py:115 | `s[:n]` is a prefix of `s` whose length is `n` clamped to the string, counting negative `n` from the end |
| StoryGen.WinningDelimiter | japanese_story_gen.py:117-121 | The delimiter the loop breaks on is the first in list order whose last occurrence lies beyond 80% of the limit; none before it does |
| StoryGen.Trimmed | japanese_story_gen.py:114-121 | The trimmed story is a prefix of the story; a story within the limit is unchanged, and a longer one is cut to at most the limit |
| StoryGen.TrimStory | japanese_story_gen.py:113-121 | The truncation and the delimiter loop with `break` compute exactly `Trimmed` |
| StoryGen.TrimmedAtDelimiter | japanese_story_gen.py:115-121 | When a delimiter wins, the result ends with it at an index i where 5·i > 4·limit, no later occurrence of it precedes the limit, and no earlier delimiter in the list lies that far along |
| StoryGen.TrimmedHard | japanese_story_gen.py:115-121 | When no delimiter lies beyond 80%, the result is exactly the first `limit` characters |
| StoryGen.TrimmedEndsWell | japanese_story_gen.py:114-121 | A story over the limit is cut either to exactly the limit or just after a delimiter beyond 80% of it |
| StoryGen.PriorityIsListOrder | japanese_story_gen.py:117-121 | With a limit of 20, a `。` at index 17 wins over a `」` at index 18: priority is by list order, not position |
| StoryPrompts.ConstraintBlock | japanese_story_gen.py:144-162 | Defines the constraint block of each mode: the strict or flexible lead-in, the listing and the numbered rules, with the source's text |
| StoryPrompts.ClaudeHeader | japanese_story_gen.py:164-165 | Defines the opening paragraph of the Claude prompt with `str(max_length)` in it |
| StoryPrompts.ClaudeTail | japanese_story_gen.py:166-173 | Defines what follows the constraint block: a blank line, `**THEME:** <theme>` and a blank line when the theme is truthy, then the closing line |
| StoryPrompts.ClaudePrompt | japanese_story_gen.py:164-173 | Defines `user_prompt` as header, constraint block and tail |
| StoryPrompts.LocalHeader | japanese_story_gen.py:79-81 | Defines the opening of the local prompt with `str(max_length)` in it and the vocabulary-list heading |
| StoryPrompts.LocalTail | japanese_story_gen.py:83-89 | Defines what follows the listing: a blank line, `【テーマ】<theme>` and a blank line when the theme is truthy, then `【物語】` and a newline |
| StoryPrompts.LocalPrompt | japanese_story_gen.py:79-89 | Defines `prompt` as header, listing and tail |
| Vocabulary.Listing | japanese_story_gen.py:46-54 | Defines the listing as the terms, readings dropped, joined by `", "` |
| Text.Join | japanese_story_gen.py:54 | Defines `sep.join(parts)`: the parts in order with the separator between neighbours, `""` for no parts |
| Text.Lower | japanese_story_gen.py:273 | `lower()` keeps the length and maps every character on its own, turning `A`-`Z` into `a`-`z` and keeping every other character |
| AnkiExport.FindAll | japanese_story_gen.py:30 | Defines `re.findall(pattern, content, re.MULTILINE \| re.DOTALL)` as the scan from position 0 |
| AnkiExport.RecordOf | japanese_story_gen.py:33-42 | Defines the record one match yields: its term and the reading of its payload |
| Demo.PreviewLine | demo.py:49 | Defines one preview line, `f"{i:2}. {kanji:10} ({reading})"` |
| Demo.Preview | demo.py:48-49 | Defines the preview as one line per word of `vocab_words[:20]`, numbered from 1 |
| Demo.MoreLine | demo.py:51-52 | Defines the optional line `... and <n − 20> more words`, present when n > 20 |
| Demo.Stats | demo.py:67-69 | Defines the three statistics: the number of words, the listing's length, and Σ\|reading\| + 2·n |
| StoryPrompts.BuildClaudePrompt | japanese_story_gen.py:140-173 | Listing the words, choosing the constraint block and appending the theme and the closing line step by step gives `ClaudePrompt` |
| StoryPrompts.ConstraintBlockShape | japanese_story_gen.py:144-162 | The constraint block is the mode's lead-in, the listing and the mode's rules |
| StoryPrompts.ClaudePromptLayout | japanese_story_gen.py:164-168 | The prompt is the header, the mode's constraint block and the tail, at known offsets; header and tail are the same for both modes, so strict and flexible prompts differ only in the constraint block |
| StoryPrompts.ConstraintBlockEmbedsListing | japanese_story_gen.py:146-155 | Either constraint block contains the whole listing right after its lead-in |
| StoryPrompts.ClaudePromptEmbedsListing | japanese_story_gen.py:146-166 | Either prompt contains the whole listing right after the header and lead-in |
| StoryPrompts.ParticleLists | japanese_story_gen.py:148-156 | The flexible particle list is the strict one with まで and より inserted before など; the strict list has neither |
| StoryPrompts.TailThemeDirective | japanese_story_gen.py:166-173 | The tail opens with `**THEME:** ` followed by the theme exactly when the theme is given and non-empty, and ends with the closing line |
| StoryPrompts.ClaudeThemeDirective | japanese_story_gen.py:170-171 | The theme directive follows the constraint block if and only if the theme is given and non-empty, with the theme's text right after its label |
| StoryPrompts.ClaudePromptEnding | japanese_story_gen.py:173 | Every Claude prompt ends with `Write the story in Japanese only (no English):` |
| StoryPrompts.ClaudeHeaderStatesLimit | japanese_story_gen.py:164 | The header contains the decimal limit right after its opening words |
| StoryPrompts.ClaudePromptStatesLimit | japanese_story_gen.py:164 | The number written into the prompt reads back as the limit |
| StoryPrompts.BuildLocalPrompt | japanese_story_gen.py:75-89 | The f-string followed by the optional theme line and the story marker gives `LocalPrompt` |
| StoryPrompts.LocalTailTheme | japanese_story_gen.py:84-89 | The tail opens with `【テーマ】` followed by the theme exactly when the theme is given and non-empty, and ends with `【物語】\n` |
| StoryPrompts.LocalPromptLayout | japanese_story_gen.py:79-87 | The local prompt holds the listing right after its header, and the theme line follows the listing's paragraph if and only if the theme is given and non-empty |
| StoryPrompts.LocalPromptEnding | japanese_story_gen.py:89 | Every local prompt ends with `【物語】\n` |
| StoryPrompts.LocalHeaderStatesLimit | japanese_story_gen.py:79 | The local header contains the decimal limit right after its opening words |
| StoryPrompts.LocalPromptStatesLimit | japanese_story_gen.py:79 | The number written into the local prompt reads back as the limit |
| StoryErrors.ClassifyError | japanese_story_gen.py:273-306 | A message is a credits error if and only if its lowered text contains `credit balance`, `400` or `billing`. It is an API-key error if and only if it is not a credits error and contains `api key`, `authentication` or `401`. Otherwise it is generic |
| StoryErrors.ClassifyIgnoresCase | japanese_story_gen.py:273 | Classifying the lowered message gives the same kind, so only letter case is normalised |
| StoryErrors.CreditsBeforeKey | japanese_story_gen.py:276-287 | A message with signals of both kinds is a credits error: the credits test comes first |
| StoryErrors.CreditsMessageClassified | japanese_story_gen.py:191 | A message raised as `Insufficient credits or billing issue: …` is classified as credits, whatever detail it carries |
| StoryErrors.AuthMessageNeverGeneric | japanese_story_gen.py:185 | A message raised as `Authentication failed - invalid API key: …` is never classified as generic |
| Demo.ParseAnkiVocab | demo.py:11-30 | The demo's parser returns exactly `Records(content)`, the same records as `AnkiVocabParser.parse` on the same content |
| Demo.PreviewIsFirstWords | demo.py:48-49 | The preview has min(20, n) lines; line k shows word k and is numbered k + 1 |
| Demo.PreviewLineNumber | demo.py:49 | A preview line begins with its number right-aligned in two columns, followed by `. ` |
| Demo.PreviewLineTerm | demo.py:49 | The term follows the number, padded with spaces to ten columns |
| Demo.PreviewLineReading | demo.py:49 | The line ends with the reading in parentheses and has no other characters |
| Demo.MoreLineAccountsForRest | demo.py:51-52 | The "more" line appears if and only if n > 20, and the count it prints plus the preview's length is n |
| Text.PadLeft | demo.py:49 | `{i:2}` pads with spaces on the left to the width and keeps the number at the end |
| Text.PadRight | demo.py:49 | `{kanji:10}` keeps the term at the start and pads with spaces on the right to the width |
| Text.DecimalRoundTrip | demo.py:52 | The decimal text of a number reads back as that number |
| Demo.DisplayText | demo.py:62 | The displayed listing is unchanged when at most 300 characters. A longer one becomes its first 300 characters plus `...`, 303 in all; it is 303 long exactly when the listing exceeds 300 |
| Demo.Readings | demo.py:69 | One reading per record, in list order |
| Demo.SavingsAtLeastTwoPerWord | demo.py:69 | The savings estimate is at least two characters per word |
| Demo.PromptLengthFormula | demo.py:68 | The estimated prompt length is Σ\|term\| + 2·(n−1), or 0 for no words |
| Demo.AnnotatedLength | demo.py:69 | Writing every word as `term(reading)` adds Σ\|reading\| + 2·n characters to the terms |
| Demo.SavingsAreReadingsLeftOut | demo.py:69 | The savings estimate is exactly how much longer the listing would be with every reading included in parentheses |

## Left out

- File reading (`open`/`read` in `parse` and `parse_anki_vocab`) and writing the story file. Both parsers take the file's content as a string: the text as text-mode `f.read()` returns it, with `\r\n` and `\r` line ends already turned into `\n`. On raw CRLF text the model's `ClosesAt`, and so `"$`, would not close before `\r\n`; the programs never see such text.
- Loading, tokenising and sampling with the local model, and the Anthropic client call. These are foreign libraries with floating-point sampling parameters. The model covers only the prompts sent and the trimming of the returned text.
- The `.strip()` of the decoded text and of Claude's reply. They depend on model output; `Text.Strip` models the same operation wherever the parsers use it.
- `generate_story_claude`'s mapping of SDK exception classes to messages. The exception hierarchy and its `status_code` attribute are not modelled. Only the two messages whose classification matters are modelled: the credits message and the authentication message.
- Argument parsing, the API-key lookup (argument, environment, key file), every `print`, and the `--show-vocab` listing in `main`. These are command-line and terminal plumbing.
- Text.Lower: lowers ASCII letters only; Python's full Unicode case mapping is not modelled. A few non-ASCII characters lower to ASCII letters in Python (U+212A KELVIN SIGN becomes `k`, U+0130 becomes `i` plus a combining dot), so a message spelling a signal word with them is classified differently: `"API \u212AEY: …"` is an API-key error in `main` but `OtherApiError` in `ClassifyError`.
- Text.IsSpace: the whitespace table of `str.isspace` is written out character by character. The Unicode database behind it is not consulted.
- StoryGen.WinningDelimiter: the threshold `last_delim > max_length * 0.8` is modelled exactly as 5·i > 4·max_length. The rounding of the floating-point product is not modelled.
- Demo.PreviewLineTerm: padding counts characters, as Python's format does. Display width of full-width characters is not considered.
- StoryPrompts.ParticleLists: states how the particle lists of the two modes differ. It does not claim that まで and より appear nowhere else in the strict block.
