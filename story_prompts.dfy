/** The instructions the story generator hands to a generation backend:
    the Claude prompt with its strict or flexible vocabulary constraints, and
    the prompt for a local model. */
module StoryPrompts {
  import opened Text
  import opened Vocabulary
  import StoryGen

  /** `--strict-vocab` on or off. */
  datatype VocabMode = Strict | Flexible

  /** `if theme:` for `theme: str = None`: a theme is used only when given
      and non-empty. */
  predicate HasTheme(theme: Option<string>) {
    theme.Some? && theme.value != ""
  }

  // ---------------------------------------------------------------------
  // Claude prompt

  const StrictParticles: string := "は、が、を、に、で、と、の、へ、から、など"
  const FlexibleParticles: string := "は、が、を、に、で、と、の、へ、から、まで、より、など"

  /** The strict block up to the embedded listing, and after it. */
  const StrictLead: string := "**STRICT CONSTRAINTS:**\n1. Use ONLY words from this list: "
  const StrictRules: string :=
    "\n2. You may use basic particles (" + StrictParticles + ")" +
    "\n3. You may conjugate the listed words grammatically" +
    "\n4. Do NOT introduce any new vocabulary words" +
    "\n5. Make the story natural and engaging"

  /** The flexible block up to the embedded listing, and after it. */
  const FlexibleLead: string := "**CONSTRAINTS:**\n1. PRIMARY vocabulary to use: "
  const FlexibleRules: string :=
    "\n2. You may use basic particles (" + FlexibleParticles + ")" +
    "\n3. You may conjugate the listed words grammatically" +
    "\n4. You may use minimal additional common words (数, 時, 所, 事, 人, etc.) ONLY when absolutely necessary for natural flow" +
    "\n5. Aim to use 90%+ of words from the provided vocabulary list" +
    "\n6. Make the story natural, engaging, and grammatically correct" +
    "\n\nFocus on creating a natural story that teaches the vocabulary in context."

  const ClaudeIntro: string := "Please write a short Japanese story (maximum "
  const ThemeLabel: string := "**THEME:** "
  const ClaudeClosing: string := "Write the story in Japanese only (no English):"

  /** The part of the constraint block that precedes the listing. */
  function Lead(mode: VocabMode): string
  {
    match mode
    case Strict => StrictLead
    case Flexible => FlexibleLead
  }

  /** `constraints` in `generate_story_claude`. */
  function ConstraintBlock(mode: VocabMode, wordListStr: string): string
  {
    match mode
    case Strict => StrictLead + wordListStr + StrictRules
    case Flexible => FlexibleLead + wordListStr + FlexibleRules
  }

  /** The part of the constraint block that follows the listing. */
  function Rules(mode: VocabMode): string
  {
    match mode
    case Strict => StrictRules
    case Flexible => FlexibleRules
  }

  /** The first paragraph of the Claude prompt, with the length limit. */
  function ClaudeHeader(maxLength: int): string
  {
    ClaudeIntro + IntToString(maxLength) +
    " characters) using primarily the vocabulary words provided below.\n\n"
  }

  /** The closing directive does not begin with the theme label. */
  lemma ClosingIsNotThemeLabel()
    ensures !OccursAt(ClaudeClosing, ThemeLabel, 0)
  {
    assert ClaudeClosing[5] == ' ' && ThemeLabel[5] == 'M';
    assert |ClaudeClosing| >= |ThemeLabel| ==> ClaudeClosing[..|ThemeLabel|][5] != ThemeLabel[5];
  }

  /** Everything after the constraint block: a blank line, the optional theme
      directive and the closing directive. */
  function ClaudeTail(theme: Option<string>): string
  {
    "\n\n" + (if HasTheme(theme) then ThemeLabel + theme.value + "\n\n" else "") + ClaudeClosing
  }

  /** `user_prompt` as `generate_story_claude` sends it: header, constraint
      block and tail. */
  function ClaudePrompt(mode: VocabMode, wordListStr: string, maxLength: int,
                        theme: Option<string>): string
  {
    ClaudeHeader(maxLength) + ConstraintBlock(mode, wordListStr) + ClaudeTail(theme)
  }

  /** Adding the optional directive and then the closing line to `body`, one
      `+=` at a time, gives `body` followed by the tail. */
  lemma AppendStepwise(body: string, tag: string, value: string, present: bool, closing: string)
    ensures (if present then body + "\n\n" + tag + value + "\n\n" else body + "\n\n") + closing ==
            body + ("\n\n" + (if present then tag + value + "\n\n" else "") + closing)
  {
    if present {
      var directive := tag + value + "\n\n";
      assert body + "\n\n" + tag + value + "\n\n" == body + "\n\n" + directive;
      assert body + "\n\n" + directive + closing == body + ("\n\n" + directive + closing);
    }
  }

  /** The prompt-building part of `generate_story_claude`: list the words
      with `format_for_prompt`, choose the constraint block, then build the
      prompt step by step. */
  method BuildClaudePrompt(vocabWords: seq<VocabRecord>, theme: Option<string>,
                           maxLength: int, mode: VocabMode) returns (userPrompt: string)
    ensures userPrompt == ClaudePrompt(mode, Listing(vocabWords), maxLength, theme)
  {
    var wordListStr := StoryGen.FormatForPrompt(vocabWords);
    var constraints;
    if mode == Strict {
      constraints := StrictLead + wordListStr + StrictRules;
    } else {
      constraints := FlexibleLead + wordListStr + FlexibleRules;
    }
    var body := ClaudeHeader(maxLength) + constraints;
    userPrompt := body + "\n\n";
    if HasTheme(theme) {
      userPrompt := userPrompt + ThemeLabel + theme.value + "\n\n";
      AppendStepwise(body, ThemeLabel, theme.value, true, ClaudeClosing);
    } else {
      AppendStepwise(body, ThemeLabel, "", false, ClaudeClosing);
    }
    userPrompt := userPrompt + ClaudeClosing;
  }

  /** The constraint block is its lead-in, the listing and the mode's rules. */
  lemma ConstraintBlockShape(mode: VocabMode, wordListStr: string)
    ensures ConstraintBlock(mode, wordListStr) == Lead(mode) + wordListStr + Rules(mode)
  {
  }

  /** A Claude prompt is the header, then the mode's constraint block, then
      the tail, and nothing else. Header and tail do not depend on the mode,
      so strict and flexible prompts differ only in the constraint block. */
  lemma ClaudePromptLayout(mode: VocabMode, wordListStr: string, maxLength: int,
                           theme: Option<string>)
    ensures var p := ClaudePrompt(mode, wordListStr, maxLength, theme);
            var h, c, tail := ClaudeHeader(maxLength), ConstraintBlock(mode, wordListStr), ClaudeTail(theme);
            OccursAt(p, h, 0) && OccursAt(p, c, |h|) && OccursAt(p, tail, |h| + |c|) &&
            |p| == |h| + |c| + |tail|
  {
    ThreeParts(ClaudePrompt(mode, wordListStr, maxLength, theme), ClaudeHeader(maxLength),
               ConstraintBlock(mode, wordListStr), ClaudeTail(theme));
  }

  /** The constraint block embeds the listing right after its lead-in. */
  lemma ConstraintBlockEmbedsListing(mode: VocabMode, wordListStr: string)
    ensures OccursAt(ConstraintBlock(mode, wordListStr), wordListStr, |Lead(mode)|)
  {
    ConstraintBlockShape(mode, wordListStr);
    OccursMiddle(Lead(mode), wordListStr, Rules(mode));
  }

  /** Both modes embed the whole listing, right after the block's lead-in. */
  lemma ClaudePromptEmbedsListing(mode: VocabMode, wordListStr: string, maxLength: int,
                                  theme: Option<string>)
    ensures OccursAt(ClaudePrompt(mode, wordListStr, maxLength, theme), wordListStr,
                     |ClaudeHeader(maxLength)| + |Lead(mode)|)
  {
    ConstraintBlockEmbedsListing(mode, wordListStr);
    OccursInPart(ClaudePrompt(mode, wordListStr, maxLength, theme), ClaudeHeader(maxLength),
                 ConstraintBlock(mode, wordListStr), ClaudeTail(theme), wordListStr, |Lead(mode)|);
  }

  /** The tail opens with the theme directive exactly when a theme is given,
      and ends with the closing directive. */
  lemma TailThemeDirective(theme: Option<string>)
    ensures var tail := ClaudeTail(theme);
            (OccursAt(tail, ThemeLabel, 2) <==> HasTheme(theme)) &&
            (HasTheme(theme) ==> OccursAt(tail, theme.value, 2 + |ThemeLabel|)) &&
            |tail| >= |ClaudeClosing| && tail[|tail| - |ClaudeClosing|..] == ClaudeClosing
  {
    var tail := ClaudeTail(theme);
    if HasTheme(theme) {
      OccursHead("\n\n", ThemeLabel, theme.value, "\n\n", ClaudeClosing);
      OccursInside("\n\n", ThemeLabel, theme.value, "\n\n", ClaudeClosing);
      EndsWithSuffix("\n\n" + (ThemeLabel + theme.value + "\n\n"), ClaudeClosing);
    } else {
      assert tail == "\n\n" + ClaudeClosing;
      ClosingIsNotThemeLabel();
      OccursInSecond(tail, "\n\n", ClaudeClosing, ThemeLabel, 0);
      EndsWithSuffix("\n\n", ClaudeClosing);
    }
  }

  /** The theme directive follows the constraint block exactly when a theme is
      given, with the theme's text right after its label. */
  lemma ClaudeThemeDirective(mode: VocabMode, wordListStr: string, maxLength: int,
                             theme: Option<string>)
    ensures var p := ClaudePrompt(mode, wordListStr, maxLength, theme);
            var at := |ClaudeHeader(maxLength) + ConstraintBlock(mode, wordListStr)| + 2;
            (OccursAt(p, ThemeLabel, at) <==> HasTheme(theme)) &&
            (HasTheme(theme) ==> OccursAt(p, theme.value, at + |ThemeLabel|))
  {
    DirectiveAfterBody(ClaudeHeader(maxLength) + ConstraintBlock(mode, wordListStr), theme);
  }

  /** Whatever precedes the tail, the theme directive sits two characters
      after it exactly when a theme is given. */
  lemma DirectiveAfterBody(body: string, theme: Option<string>)
    ensures (OccursAt(body + ClaudeTail(theme), ThemeLabel, |body| + 2) <==> HasTheme(theme)) &&
            (HasTheme(theme) ==> OccursAt(body + ClaudeTail(theme), theme.value, |body| + 2 + |ThemeLabel|))
  {
    TailThemeDirective(theme);
    DirectiveAfter(body + ClaudeTail(theme), body, ClaudeTail(theme), ThemeLabel,
                   if HasTheme(theme) then theme.value else "", HasTheme(theme));
  }

  /** The Claude prompt always ends with the closing directive. */
  lemma ClaudePromptEnding(mode: VocabMode, wordListStr: string, maxLength: int,
                           theme: Option<string>)
    ensures var p := ClaudePrompt(mode, wordListStr, maxLength, theme);
            |p| >= |ClaudeClosing| && p[|p| - |ClaudeClosing|..] == ClaudeClosing
  {
    var body := ClaudeHeader(maxLength) + ConstraintBlock(mode, wordListStr);
    TailThemeDirective(theme);
    EndsWithPart(ClaudePrompt(mode, wordListStr, maxLength, theme), body, ClaudeTail(theme),
                 ClaudeClosing);
  }

  /** The particle lists are where the two modes' rules differ in substance:
      the flexible list is the strict one with まで and より inserted before
      など, and the strict list has neither. */
  lemma ParticleLists()
    ensures FlexibleParticles == StrictParticles[..19] + "まで、より、" + StrictParticles[19..]
    ensures 'ま' !in StrictParticles && 'よ' !in StrictParticles
  {
  }

  /** The header states the limit in decimal right after its opening words. */
  lemma ClaudeHeaderStatesLimit(maxLength: nat)
    ensures OccursAt(ClaudeHeader(maxLength), NatToString(maxLength), |ClaudeIntro|)
  {
    OccursMiddle(ClaudeIntro, NatToString(maxLength),
                 " characters) using primarily the vocabulary words provided below.\n\n");
  }

  /** The limit written into the Claude prompt reads back as `maxLength`. */
  lemma ClaudePromptStatesLimit(mode: VocabMode, wordListStr: string, maxLength: nat,
                                theme: Option<string>)
    ensures var digits := NatToString(maxLength);
            OccursAt(ClaudePrompt(mode, wordListStr, maxLength, theme), digits, |ClaudeIntro|) &&
            DecimalValue(digits) == maxLength
  {
    var digits := NatToString(maxLength);
    var header := ClaudeHeader(maxLength);
    var block := ConstraintBlock(mode, wordListStr);
    ClaudeHeaderStatesLimit(maxLength);
    OccursInFirst(header + block, header, block, digits, |ClaudeIntro|);
    OccursInFirst(ClaudePrompt(mode, wordListStr, maxLength, theme), header + block,
                  ClaudeTail(theme), digits, |ClaudeIntro|);
    DecimalRoundTrip(maxLength);
  }

  // ---------------------------------------------------------------------
  // Local-model prompt

  const LocalIntro: string := "以下の語彙だけを使って、"
  const LocalThemeLabel: string := "【テーマ】"
  const StoryMarker: string := "【物語】\n"

  /** The first paragraph of the local prompt, with the length limit, and
      the heading of the listing. */
  function LocalHeader(maxLength: int): string
  {
    LocalIntro + IntToString(maxLength) + "文字以内の短い物語を書いてください。\n\n【語彙リスト】\n"
  }

  /** Everything after the listing: a blank line, the optional theme line and
      the story marker. */
  function LocalTail(theme: Option<string>): string
  {
    "\n\n" + (if HasTheme(theme) then LocalThemeLabel + theme.value + "\n\n" else "") + StoryMarker
  }

  /** `prompt` as `generate_story_local` hands it to the model: header,
      listing and tail. */
  function LocalPrompt(wordListStr: string, maxLength: int, theme: Option<string>): string
  {
    LocalHeader(maxLength) + wordListStr + LocalTail(theme)
  }

  /** The prompt-building part of `generate_story_local`, step by step. */
  method BuildLocalPrompt(vocabWords: seq<VocabRecord>, theme: Option<string>,
                          maxLength: int) returns (prompt: string)
    ensures prompt == LocalPrompt(Listing(vocabWords), maxLength, theme)
  {
    var wordListStr := StoryGen.FormatForPrompt(vocabWords);
    var body := LocalHeader(maxLength) + wordListStr;
    prompt := body + "\n\n";
    if HasTheme(theme) {
      prompt := prompt + LocalThemeLabel + theme.value + "\n\n";
      AppendStepwise(body, LocalThemeLabel, theme.value, true, StoryMarker);
    } else {
      AppendStepwise(body, LocalThemeLabel, "", false, StoryMarker);
    }
    prompt := prompt + StoryMarker;
  }

  /** The tail opens with the theme line exactly when a theme is given, and
      ends with the story marker. */
  lemma LocalTailTheme(theme: Option<string>)
    ensures var tail := LocalTail(theme);
            (OccursAt(tail, LocalThemeLabel, 2) <==> HasTheme(theme)) &&
            (HasTheme(theme) ==> OccursAt(tail, theme.value, 2 + |LocalThemeLabel|)) &&
            |tail| >= |StoryMarker| && tail[|tail| - |StoryMarker|..] == StoryMarker
  {
    var tail := LocalTail(theme);
    if HasTheme(theme) {
      OccursHead("\n\n", LocalThemeLabel, theme.value, "\n\n", StoryMarker);
      OccursInside("\n\n", LocalThemeLabel, theme.value, "\n\n", StoryMarker);
      EndsWithSuffix("\n\n" + (LocalThemeLabel + theme.value + "\n\n"), StoryMarker);
    } else {
      assert tail == "\n\n" + StoryMarker;
      assert tail[3] == StoryMarker[1] == '物' && LocalThemeLabel[1] == 'テ';
      assert tail[2..2 + |LocalThemeLabel|][1] != LocalThemeLabel[1];
      EndsWithSuffix("\n\n", StoryMarker);
    }
  }

  /** The local prompt embeds the listing right after its header and has the
      theme line after the listing's paragraph exactly when a theme is given. */
  lemma LocalPromptLayout(wordListStr: string, maxLength: int, theme: Option<string>)
    ensures var p := LocalPrompt(wordListStr, maxLength, theme);
            var at := |LocalHeader(maxLength)| + |wordListStr| + 2;
            OccursAt(p, wordListStr, |LocalHeader(maxLength)|) &&
            (OccursAt(p, LocalThemeLabel, at) <==> HasTheme(theme)) &&
            (HasTheme(theme) ==> OccursAt(p, theme.value, at + |LocalThemeLabel|))
  {
    var p := LocalPrompt(wordListStr, maxLength, theme);
    var header, tail := LocalHeader(maxLength), LocalTail(theme);
    ThreeParts(p, header, wordListStr, tail);
    LocalTailTheme(theme);
    if HasTheme(theme) {
      DirectiveAfter(p, header + wordListStr, tail, LocalThemeLabel, theme.value, true);
    } else {
      DirectiveAfter(p, header + wordListStr, tail, LocalThemeLabel, "", false);
    }
  }

  /** The local prompt always ends with the story marker. */
  lemma LocalPromptEnding(wordListStr: string, maxLength: int, theme: Option<string>)
    ensures var p := LocalPrompt(wordListStr, maxLength, theme);
            |p| >= |StoryMarker| && p[|p| - |StoryMarker|..] == StoryMarker
  {
    LocalTailTheme(theme);
    EndsWithPart(LocalPrompt(wordListStr, maxLength, theme), LocalHeader(maxLength) + wordListStr,
                 LocalTail(theme), StoryMarker);
  }

  /** The local header states the limit in decimal right after its opening words. */
  lemma LocalHeaderStatesLimit(maxLength: nat)
    ensures OccursAt(LocalHeader(maxLength), NatToString(maxLength), |LocalIntro|)
  {
    OccursMiddle(LocalIntro, NatToString(maxLength), "文字以内の短い物語を書いてください。\n\n【語彙リスト】\n");
  }

  /** The limit written into the local prompt reads back as `maxLength`. */
  lemma LocalPromptStatesLimit(wordListStr: string, maxLength: nat, theme: Option<string>)
    ensures var digits := NatToString(maxLength);
            OccursAt(LocalPrompt(wordListStr, maxLength, theme), digits, |LocalIntro|) &&
            DecimalValue(digits) == maxLength
  {
    var header := LocalHeader(maxLength);
    LocalHeaderStatesLimit(maxLength);
    OccursInFirst(header + wordListStr, header, wordListStr, NatToString(maxLength), |LocalIntro|);
    OccursInFirst(LocalPrompt(wordListStr, maxLength, theme), header + wordListStr,
                  LocalTail(theme), NatToString(maxLength), |LocalIntro|);
    DecimalRoundTrip(maxLength);
  }
}
